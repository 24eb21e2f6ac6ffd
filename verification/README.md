# An ext2 checker and repairer, modelled and verified in Dafny

The program repairs one ext2 partition in four passes.  Each pass walks the same
on-disk directory tree recursively and corrects what it finds in place:

1. `pass1` makes every directory name itself first and its parent second;
2. `pass2` puts every allocated inode that nothing names into `/lost+found`;
3. `pass3` corrects the link counts;
4. `pass4` corrects the block bitmap.

The model keeps that shape.  A `Disk` object holds the partition as 1024-byte blocks
and is changed by the passes' own reads and writes; the passes are methods with the
loops, counters, bitmaps and block buffers of the C code, and every method is proved
against a decoded view of the disk:

- `Dirs` maps a directory inode to the entries of its blocks, in walk order;
- a `Forest` is the unfolding of the walk (first subdirectory with its own children,
  then the remaining ones), so a walk that unfolds to a forest is finite;
- `World(g, img, P, D)` says that the bytes `img` hold the directories `D` at the
  places `P`;
- `Repairable(g, img, w)` collects everything the program takes for granted, and
  `Consistent(g, img, P, E, H)` is the state after repair.

The main theorem is the contract of `Fsck.CorrectPartition`: from every repairable
disk the four passes in order reach a consistent disk (one tree, dot entries right,
every link count the number of names, every verified block's own bit right), every
inode that was live before the run (its own bitmap bit set, its link count not zero) is
named in that tree and live afterwards, and the result is again repairable.  The
program stops short of that only in pass2, exactly when it rescues an inode that is no
directory and whose first block number lies beyond the disk.  `Fsck.CorrectTwice` says
when a second run writes nothing.  `Aftermath` reads off what the link counts and
lost+found then are.  `Partition` and `Logical` treat the walk through an extended
partition: it finds exactly the logical partitions that the sectors hold.

`Formats` spells the on-disk formats out in bytes and literal numbers, apart from the
functions that the code's model is made of: where a group's parts lie and which blocks
pass4 verifies, what the fields of an inode, a bitmap bit and a directory record are.

pass2 depends on the order of the inode numbers.  `Rounds` follows its loop on the
decoded directories round by round with no assumption on that order, and `Pass2.Pass2`
proves that the method leaves exactly the last round's directories on the disk.
`Listed` then says which inodes the loop puts into lost+found and `Outcome` which ones
it leaves without a name, for any numbering of the orphans and any stale `..`.
`AnyRun.CorrectAnyOrder` carries such a disk through all four passes, and
`AnyRun.LiveAfterIff` says what becomes of every inode that was live.
`Orphans` and `Topmost` treat the case in which nothing is missed, which the main
theorem asks for.

`Witness.SampleIsRepairable` builds a repairable disk image byte by byte, with two
orphan directories and a regular file or a symbolic link to rescue.
`Witness.FileClobbered` says what the rescue does to the file's block, and
`Witness.ExitAtLink` proves that on the image with the link the program exits, and
`Sample.LoseOne` that on two more images the four passes lose an inode.

## Where the code does what it means to do

The program relies on conditions it does not test.  They are preconditions here, and
where the condition can be stated exactly it is proved to be necessary as well:

| condition | stated by | exactness |
|---|---|---|
| directories unfold: links lead to directories that exist and to no cycle | `Unfolds` | `Acyclic.WalkEndsIff` |
| a directory opens with two entries typed as directories | `Headed` | `Dots.HeadRepaired` |
| no entry typed as a directory in the first two places of a later block, where pass1 restarts `count` | `Headed` | `Dots.LaterBlockKept` |
| the block lost+found's new entry goes to has a complete chain (`offset -= len` is wrong when `len` is -1) | `Lands` | `LostFound.LandsIffComplete` |
| an orphan directory's first record is 12 bytes long | `Rewritable` | `LostFound.RewriteLandsIff`, with `Witness.RewriteMisses` |
| an orphan that is no directory has its first block on the disk | not asked for: `Exits` is the other outcome | `Pass2.Pass2`, with `Witness.ExitAtLink` |
| lost+found's first block holds an entry, so that the uninitialised entry struct is overwritten | `Begun` | `LostFound.JunkUnused` |
| an orphan top is smaller than every live directory below it | `Sorted` | `Listed.DirectoryListedIff`, with `Sample.OneLost` |
| an orphan top's stale `..` names no larger live inode, unless the tree names that inode anyway | `StaleMild` | `Outcome.CompleteIff`, `Listed.TopMissedIff`, with `Sample.OneLost` |
| at most 127 names per inode, the counters being `char` | `Modest` | `Pass3.StoredExact`, `Pass3.StoredStable` |
| one group, or groups that fill their bitmap blocks, so that the partition-wide index finds an object's own bit | `Fills`, in `InodeMaps` and `BlockMaps` | `Bitmap.PartitionIndexIff`, `Bitmap.SeenIsOwn` |
| the last group reaches past its skipped blocks, or no group has other blocks | `StaysOnDisk`, in `BlockMaps` | `Pass4.VisitsIff`, with `Pass4.GroupTooMany` |
| every inode table lies in the skipped part of its group, for a second run to write nothing | `TablesSkipped` | `Fsck.CorrectTwice` |
| lost+found has room for every new entry | `HasRoom` | `Outcome.EndNamesIff`, `Outcome.CompleteIff` |
| files of at most 65549 blocks (two levels of indirection reach 65804) | `FileMarks` | `FileBlocks.ThresholdIff` |
| an extended partition entry does not name its own sector | `MovesOn` | `Partition.HaltsIff` |

Further preconditions, each a conjunct of `Repairable`: record chains tile their block
or stop at a zero inode; entries name existing inodes once pass1 has corrected the dots;
entry types agree with inode modes and there are no special files; the tree and the
orphan trees are disjoint; below an orphan top all dots are right; lost+found is a
directory of the tree; the first block of an orphan that is no directory holds neither
directory entries nor metadata, if it is on the disk at all (`LooseBlock`).

The results on any numbering (`AnyOrder`, and `Startable` for a whole run) ask less: nothing of the order, the stale `..`
or the room in lost+found, and of each live directory outside the tree only that it can
be walked without coming to lost+found, names itself in a first record of 12 bytes, and
has right dots below it.

Three places where code and comments disagree are modelled as coded.  pass1's guard
`!INODE_IS_DIR(&inode)` expands to `(!(mode & 0xF000)) == 0x4000`, which is never true,
so it skips nothing.  add_to_lost_found rewrites bytes 12 to 15 of the rescued inode's
first block even if that inode is a file or a link, where there is no `..`
(`LostFound.FileKeptIff` says when the file survives that).
parse_bytes_to_decimal_u is little endian, not big endian.

## Model

| member | source | states |
|---|---|---|
| Fsck.CorrectPartition | correct.c:489-518 | From every repairable disk, unless pass2 exits, passes 1 to 4 end in a consistent one on which every inode live before the run is named and live, and that is repairable again; outside directories and metadata exactly the first blocks of rescued files differ, and they in bytes 12 to 15, which hold lost+found's number. It exits at the first rescued inode whose first block is beyond the disk, and then nothing but directories and loose blocks has changed. Where the first three passes have nothing to do, it does not exit, a write happens iff a bitmap bit is wrong, and without one every byte stays. |
| Fsck.CorrectTwice | correct.c:509-512 | The program exits iff some inode to be rescued has its first block beyond the disk; if not, every inode live before the first run is named and live after it, and the second run does not exit either. It writes no block iff every inode table block that pass4 also verifies as a data block is used by the tree; it writes none where all tables lie in their groups' skipped blocks, and where no directory or file has a block inside a table it writes none only then. |
| Fsck.SecondRun | correct.c:317-347 | Whether a run on the repaired disk writes nothing is decided by the geometry: pass4's two loops agree if all tables lie in skipped blocks, and, no table being used by directories or files, only if. |
| Fsck.TreeAvoidsTables | correct.c:360-399 | On the repaired disk the tree uses no inode table block if no directory and no file did before. |
| Fsck.AgreeOnlySkipped | correct.c:317-347 | If the tree uses no table block and the loops agree, every table block lies in its group's skipped part. |
| Fsck.RepairedIsConsistent | correct.c:509-512 | What the passes establish one by one adds up to the global predicate on the final disk: one tree, right dots, link counts equal to name counts, verified blocks' own bits equal to use. |
| Fsck.LiveSaved | correct.c:90-132 | Every inode whose own bit and link count were set before the run is named in the final tree and has both set afterwards. |
| Fsck.RepairableAgain | correct.c:509-512 | A repaired disk meets every precondition of a further run, which leaves passes 1 to 3 nothing to do. |
| Fsck.Assemble | correct.c:509-512 | pass3 keeps what pass1 and pass2 established and pass4 keeps all three. |
| Fsck.AfterPass1 | correct.c:509-510 | pass1 turns a repairable disk into one that meets pass2's preconditions, with the same live inodes, modes and orphan trees. |
| Fsck.TreeUsedKept | correct.c:511-512 | Rewriting directory blocks, loose blocks and link counts does not change which blocks the tree uses. |
| Fsck.NamedDirIsNode | correct.c:112-127 | A directory inode that the repaired tree names is one of the tree's directories. |
| Aftermath.FinalLinkCounts | correct.c:278-292 | On the repaired disk every directory's stored count is two plus its subdirectories, root included; every other inode's is its number of names, 0 if none; all stored counts sum to the number of entries in the tree. |
| Aftermath.FinalLostFound | correct.c:98-132 | On the repaired disk lost+found holds its old entries plus one per rescued inode; a live directory is rescued iff it tops an orphan tree, any live inode iff nothing in the tree or in an orphan tree with a smaller top names it. |
| Pass1.Pass1 | correct.c:29-75 | Recursion and loops end, and leave exactly the view `FixTree`; only directory blocks differ; where all dots were right no block is written. |
| Pass1.Pass1Block | correct.c:47-73 | One block's records are visited in order, the rest of the tree stays as it was, and what is still to be walked shrinks. |
| Pass1.Visit | correct.c:55-72 | One record: a dot entry is corrected, a subdirectory is walked with this directory as parent, anything else is passed over. |
| Pass1.CorrectDot | correct.c:56-66 | The rewritten block decodes to the same entries but for this one's inode, no other directory changes, and a right entry is not written. |
| Pass1.CalmTree | correct.c:55-70 | Walking a subtree with right dots changes nothing in it or beside it. |
| Dots.FixTreeRight | correct.c:17-27 | After the walk every visited directory's first entry is itself and its second its parent. |
| Dots.FixTreeKeeps | correct.c:55-72 | Only inode fields of first-block entries 0 and 1 of visited directories differ; every directory's other entries, and so the edges the walk follows, are the same before and after. |
| Dots.FixTreeUnfolds | correct.c:67-69 | pass1 leaves the tree below every list of entries as it was. |
| Dots.FixTreeIdle | correct.c:56-66 | pass1 is the identity on directories whose dots are right, so it is idempotent. |
| Dots.DotsNameTheParent | correct.c:67-69 | The recursion's parent is the tree's: wherever a directory names a subdirectory, that subdirectory names it second. |
| Dots.HeadRepaired | correct.c:55-66 | pass1 repairs the two dot entries iff each is typed as a directory or right already. |
| Dots.LaterBlockKept | correct.c:49-66 | Because `count` restarts, a later block keeps its entries iff its first two are not typed as directories or happen to hold the dot inodes. |
| Acyclic.WalkEndsIff | correct.c:134-165 | A walk from a directory unfolds to a finite tree iff every directory that links lead to exists and none is on a cycle. |
| Acyclic.Unfold | correct.c:134-165 | Constructs the finite tree a walk over an acyclic directory graph follows. |
| Tree.UnfoldsUnique | correct.c:134-165 | A directory has one unfolding at most. |
| Tree.WalkedIsReachable | correct.c:134-165 | The walk from a directory visits exactly those that some path of subdirectory entries leads to. |
| Tree.RefsPositive | correct.c:155 | An inode's count is positive iff some visited directory has an entry naming it. |
| LinkCounts.CountIsPlaces | correct.c:155 | What the recursion counts is the cardinality of the set of (directory, position) pairs that name the inode: each place once. |
| LinkCounts.DirectoryLinks | correct.c:278-292 | A directory of a tree with right dots is counted 2 + subdirectories times, the root included. |
| LinkCounts.FileLinks | correct.c:278-292 | What is no directory of the tree is counted once per name below the dots. |
| LinkCounts.CountsAddUp | correct.c:278-292 | The counts of all inodes add up to the number of entries of all directories. |
| LinkCounts.DirCounts | correct.c:278-292 | In any subtree each directory is named once by its parent, once by itself and once by each subdirectory, and the parent once by each top. |
| Walk.Traverse | correct.c:134-165 | Adds to each counter the number of entries of the subtree naming that inode, dots included, leaves nothing else changed, and ends on every finite subtree. |
| Walk.TraverseBlock | correct.c:144-163 | One block: what has been counted plus what is left always makes the same total. |
| Walk.Descend | correct.c:156-160 | The recursive step is taken past the first two entries of the first block and no others. |
| Walk.Bump | correct.c:155 | Incrementing a signed `char` counter tracks the exact count modulo 256. |
| Layout.WalkReads | correct.c:38-45 | The pointers of a directory's inode give its blocks in order, then zero, and each block decodes to the view's entries. |
| Layout.BlockRewritten | correct.c:80-88 | Rewriting one directory block changes the view in that block and nowhere else. |
| DirBlock.ReadDirEntry | dir.c:13-25 | Fails exactly on a zero inode, writing only that field; otherwise returns the record's fields and length. |
| DirBlock.NextRecord | dir.c:13-25 | What is read at an offset is the head of the decoded rest of the block, and the next record's offset decodes to its tail. |
| DirBlock.PatchIno | correct.c:80-88 | Four bytes written at a record replace that entry's inode in the decoded block and nothing else. |
| DirBlock.WrittenIno | correct.c:86-87 | The block after write_number_into_block still tiles into the same records. |
| DirBlock.PutEntryDecodes | correct.c:258-270 | The new record's bytes, name and NUL included, decode to that one entry up to the end of the block. |
| DirBlock.SpliceDecodes | correct.c:196-214 | Cutting the last record and adding one after it decodes to the old entries, the last one shorter, then the new one; the chain still ends at the block's end. |
| DirBlock.BytesAreSpliced | correct.c:209-212 | The bytes the two writes leave are such a splice, and all lie inside the block. |
| DirBlock.DecodePrefix | dir.c:13-25 | A block that keeps the bytes before record k decodes to the old first k entries and what follows. |
| LostFound.AddToLostFound | correct.c:171-222 | -1 and no write without a lost+found; otherwise lost+found gains the entry where the scan puts it. Then a directory's second entry names lost+found, or four bytes of another inode's first block do, or the program exits, iff that block is beyond the disk; the image is the old one with exactly these two edits. |
| LostFound.InsertEntry | correct.c:187-215 | The loop settles on the first block that passes the fit test and edits that one: its bytes then are the old ones with the last record cut and the new one behind it, also where the chain had stopped early; no other block changes, and none without room. |
| LostFound.FirstFit | correct.c:182-215 | The first block with room behind its last entry (or one byte behind where its chain stopped), the length of the entry met last carried on from block to block, takes the new entry if its chain is complete; without room nothing is written. |
| LostFound.CompleteFit | correct.c:182-215 | Where all chains are complete the entry shows iff in some block all entries before the last, the last one cut and the new one come to less than 1024 bytes, and it is in the first such block. |
| LostFound.SpliceInto | correct.c:209-213 | The block's edit in place, seen on the whole disk. |
| LostFound.ScanBlock | correct.c:196-206 | After `offset -= len` the offset is the last record's start if the chain was complete, one past the zero inode if not. |
| LostFound.LandsIffComplete | correct.c:196-214 | The new entry shows in the decoded block iff the chain had reached the block's end; otherwise the block decodes as before. |
| LostFound.SpliceLost | correct.c:196-214 | An edit behind a zero inode is never decoded. |
| LostFound.JunkUnused | correct.c:186-207 | The uninitialised entry struct does not matter once lost+found's first block holds an entry. |
| LostFound.WriteNewEntry | correct.c:258-270 | Exactly the header, name and NUL bytes change, one block is written. |
| LostFound.RewriteParent | correct.c:216-221 | Exactly bytes 12 to 15 of the inode's first block change; that is a directory's second entry, and for another inode no directory changes. A block beyond the disk ends the program, with nothing written. |
| LostFound.FileKeptIff | correct.c:216-221 | A rescued file's first block keeps its bytes iff bytes 12 to 15 already hold lost+found's number. |
| LostFound.RewriteLandsIff | correct.c:216-221 | After four bytes have been written at offset 12, the second record names lost+found iff the first record is 12 bytes long or it did so before. |
| LostFound.SearchDirEntry | dir.c:65-95 | Finds the first entry of the first block whose C string equals the name. |
| Names.NameRoundTrip | correct.c:227-253 | Reading an entry's name as a decimal number gives the inode number. |
| Names.NamesDiffer | correct.c:227-253 | Two rescued inodes never share a name. |
| Names.NameShape | correct.c:238-249 | A name is 1 to 10 digits and is its own C string, so it fits its buffer and its NUL. |
| Names.CreateNewEntry | correct.c:227-253 | The two digit loops produce the decimal name, the type and the padded record length. |
| Bytes.Pad4 | util.c:67-69 | The least multiple of four that is not smaller. |
| Bytes.ParseBytes | util.c:13-21 | The wrapping accumulator holds the little-endian value modulo 2^32. |
| Bytes.WriteNumber | util.c:75-83 | The buffer is the old one with the number's low bytes laid out little-endian, nothing else changed. |
| Bytes.RoundTrip | util.c:13-83 | Writing n in k bytes and parsing k bytes gives n modulo 256^k. |
| Bytes.LongParseIsU32 | partitionEntry.c:103-110 | Parsing any length of at least four gives the four-byte field, so the oversized lengths passed here are harmless. |
| Inode.ReadInode | inode.c:21-54 | Finds the inode's record through group, table and offset arithmetic. |
| Inode.WriteInode | inode.c:56-81 | One table block is written, with two bytes of one record changed. |
| Inode.PutLinksHere | inode.c:56-81 | write_inode then read_inode gives the new count modulo 2^16 and every other field and byte of the record unchanged. |
| Inode.PutLinksElsewhere | inode.c:56-81 | Every byte of every other inode in every group is unchanged. |
| Inode.RecordsApart | inode.c:187-202 | The group and offset arithmetic never maps two inodes to overlapping bytes. |
| Inode.ReadGroupTable | inode.c:87-96 | The buffer is the concatenation of the table's blocks. |
| Disk.Disk.ReadBlock | util.c:39-44 | Fills one block's worth of the buffer and nothing else. |
| Disk.Disk.WriteBlock | util.c:46-51 | Replaces one block and records its number. |
| Formats.PartSizes | inode.c:170-194 | Bitmaps are the least number of 8192-bit blocks for a group's blocks or inodes, a table the least number of 1024-byte blocks for inodes of 128 bytes, and groups as many as the partition's blocks or inodes need. |
| Formats.VerifiedIff | correct.c:547-560 | In a group laid out as superblock, descriptors, block bitmap, inode bitmap and inode table, pass4 verifies a block iff it is on the disk and none of these. |
| Formats.TableBlocksIff | correct.c:334-347 | The second loop verifies the blocks of the inode tables of all groups, and no other. |
| Formats.InodeOnDisk | inode.c:21-54 | Every field of inode n is the two or four bytes at its place in the record, which starts 128 bytes times the inode's place in its group behind the start of the group's table. |
| Formats.ModeRanges | common.h:32-34 | Directories have modes 0x4000 to 0x4fff, regular files 0x8000 to 0x8fff, symbolic links 0xa000 to 0xafff. |
| Formats.LinksOnDisk | inode.c:56-81 | write_inode changes bytes 26 and 27 of the record to the low sixteen bits, and no other byte of the partition. |
| Formats.OwnBitOnDisk | dataBlock.c:84-100 | An object's own bit is bit r mod 8 of byte r div 8 of its group's bitmap, r being its place in the group. |
| Formats.EntryOnBytes | dir.c:13-25 | Inode, record length, name length, type and name of a record are bytes 0 to 3, 4 and 5, 6, 7 and 8 on; type 2 is a directory. |
| Formats.NewEntryIs | correct.c:227-253 | The entry for a rescued inode has type 2 for a directory and 1 for anything else, and the padded length of header and name. |
| Formats.NewEntryBytes | correct.c:258-270 | The bytes it becomes on the disk, field by field, with a NUL behind the name; all other bytes of the block stay. |
| Formats.DecimalDigits | correct.c:227-253 | The name is the decimal number's digits as ASCII characters. |
| Formats.LostFoundName | correct.h:12 | The name searched for is "lost+found". |
| Formats.FindIsFirst | dir.c:65-95 | The search finds the first entry with the name, or none if there is none. |
| Formats.CStrIs | dir.c:65-95 | Names compare by what comes before the first NUL. |
| Formats.RewriteBytes | correct.c:216-221 | The rewrite of a first block puts lost+found's number into bytes 12 to 15 and keeps the rest. |
| Pass2.Pass2 | correct.c:98-132 | For any numbering of the orphans the loop runs to its end, or to the first round that rescues an inode with its first block beyond the disk, and exits there; the directories on the disk are those of the last round begun, and outside the directories exactly the first blocks of rescued files differ, in bytes 12 to 15. With nothing missing no block is written. |
| Pass2.Pass2Inode | correct.c:112-128 | One round of the loop leaves the next round's directories, counters and loose blocks, and exits iff it rescues an inode whose first block is beyond the disk; a round that finds its inode referenced writes nothing. |
| Pass2.RescueInode | correct.c:118-126 | The walk, the insertion and the `..` rewrite of one unreferenced inode make the next round, whether inner directories have been moved before or not and whatever the uninitialised entry struct holds. |
| Pass2.LoopTest | correct.c:114-118 | The three tests on bitmap, link count and wrapped counter amount to: the inode's own bit is set, it has links, and this round's counter reads zero. |
| Rounds.RoundKeeps | correct.c:112-127 | Before every round, in any order: all directories but lost+found hold their old entries below the dots, and a directory is as it was at the start but for its second entry, which names lost+found once the loop has listed it. |
| Rounds.RoundReady | correct.c:118-126 | An inode about to be rescued still has the entries and the finite tree it had at the start. |
| Listed.CountedIff | correct.c:118-155 | Before round k an inode's counter is positive iff the tree names it or the walk of an earlier listed directory met it, with `..` fields as they were in that round. |
| Listed.AnyOrderRuns | correct.c:112-128 | Conditions on the disk before pass2 alone, whatever the order, keep every counter from wrapping to zero and the walks of listed directories finite and away from lost+found. |
| Listed.ListedIff | correct.c:112-127 | An inode goes to lost+found iff it is live and named neither in the tree nor in the walk of an earlier directory that went there itself. |
| Listed.WalkNamesIff | correct.c:134-165 | The walk from an orphan directory names what is inside it and what its second entry names at that moment: the stale parent until it is moved, then lost+found. |
| Listed.DirectoryListedIff | correct.c:112-127 | For any numbering and any stale `..`: a live directory goes to lost+found iff it is not in the tree and no earlier directory that went there itself has it below or in its stale `..`. |
| Listed.TopMissedIff | correct.c:118-155 | A live directory outside the tree and below no other such directory is missed iff the stale `..` of an earlier directory that itself went to lost+found names it. |
| Outcome.LostFoundFills | correct.c:171-222 | In every round lost+found names what it named before and each listed inode whose entry found room, and links to such directories. |
| Outcome.ReachedIff | correct.c:112-127 | After the loop the directories reachable from the root are those of the tree and those at or below a listed directory whose entry found room. |
| Outcome.EndNamesIff | correct.c:90-97 | A live inode is named by a reachable directory afterwards iff the tree named it, its own entry found room in lost+found, or it is inside a directory whose entry did. |
| Outcome.LostIff | correct.c:118-155 | With room in lost+found, a live inode is left without a name iff the stale `..` of an earlier listed directory named it and neither the tree nor anything inside a listed directory does. |
| Outcome.CompleteIff | correct.c:90-97 | pass2 leaves every live inode named iff each listed inode without room is held elsewhere, and each later live inode that the stale `..` of a listed directory names, or that one without room holds, is named in the tree or held elsewhere. |
| Outcome.EndWalks | correct.c:278-281 | Whatever pass2 has moved, the walk from the root afterwards meets no missing directory and no cycle, so the later passes' walks end. |
| AnyRun.CorrectAnyOrder | correct.c:489-518 | With orphans numbered and linked in any way, unless pass2 exits: the disk ends with the directories of the loop's last round, every link count the `char` that counts the names met by the walk from the root, every verified block's own bit equal to that walk's use, the inode bitmaps as they were and loose blocks with exactly their four bytes changed. |
| AnyRun.LiveAfterIff | correct.c:278-292 | After such a run an inode live before it is named by a reachable directory iff the tree named it, its own entry found room in lost+found or a directory holding it did; if it is not named, its link count is 0 and it is live no more; if it is, it stays live iff its number of names is no multiple of 256. |
| AnyRun.CountedIffNamed | correct.c:278-281 | pass3's walk counts an inode at all iff some directory reachable from the root names it. |
| AnyRun.EndTyped | correct.c:227-253 | Moving inodes in any order keeps entry types in agreement with inode modes. |
| Orphans.ProgressAt | correct.c:112-128 | Where the numbers grow down the orphan trees, before every round the tree is a tree with right dots, the orphan trees still to come are untouched, and counters, tree and orphans account for every name. |
| Orphans.ReadyRuns | correct.c:112-128 | Then whatever the loop finds unreferenced can be rescued. |
| Orphans.RunRescues | correct.c:98-132 | Then after the last round every live inode is named in one tree with right dots that holds the old tree and all orphan trees. |
| Orphans.TestIsMissing | correct.c:118 | Then a counter never wraps: the loop's test is true iff the inode is live and has not been counted at all. |
| Orphans.TakeStep | correct.c:118-126 | After a rescue everything counted stands in the tree, the later orphan trees are untouched, and no count has outgrown its counter. |
| Orphans.SkipStep | correct.c:113-118 | An inode that is skipped is no orphan top. |
| Orphans.MissingDirIsTop | correct.c:120-125 | A live directory found unreferenced is the top of the next orphan tree. |
| Orphans.TopUnnamed | correct.c:118 | No directory of the tree names an orphan top. |
| Rescue.RescueStep | correct.c:120-126 | The tree with the orphan subtree below lost+found is again a tree with right dots, disjoint from the remaining orphans, and its counts are the sum of both parts and the new name. |
| Rescue.SubtreeRefs | correct.c:216-221 | Moving the subtree exchanges one name of the stale parent for one of lost+found. |
| Graft.Attach | correct.c:171-222 | The unfolding of the directories after an insertion is the old one with the subtree among lost+found's children. |
| Graft.InsertedGrew | correct.c:196-214 | An insertion adds one entry and keeps inode, type, name and order of all others. |
| Topmost.RescuedIff | correct.c:112-127 | pass2 adds an entry for an inode iff it is live and named neither in the tree nor in an orphan tree with a smaller top. |
| Topmost.DirectoryRescuedIffTop | correct.c:121-123 | Where numbers grow down the orphan trees, of the live directories exactly the orphan tops get an entry: one per maximal unreferenced subtree, none inside one. |
| Topmost.ForestNames | correct.c:134-165 | Walking orphan trees counts, of the directories, exactly their own and those the tops' stale `..` name. |
| Sample.MissingIff | correct.c:112-127 | Of inodes 12, 13 and 14, 13 is passed over where 12's stale `..` names it, in a chain 12, 13, 14 of stale parents and where 12 lies inside 13; the other two are listed. |
| Sample.OneLost | correct.c:118-155 | On the chained and on the nested image inode 13 is live and named by no directory reachable from the root after the loop. |
| Sample.LoseOne | correct.c:489-518 | On either image the four passes leave a disk whose reachable directories do not name 13, which was live, and whose link count for it is 0. |
| Topmost.ListAscends | correct.c:112 | No inode gets two entries, and they are made in ascending order. |
| Topmost.LostFoundGains | correct.c:171-253 | lost+found afterwards holds, as a multiset of (inode, type, name), its old entries and one per rescued inode with its decimal name. |
| Pass3.Pass3 | correct.c:278-292 | Every inode's record is the old one with the stored count of its names; no other byte changes; a write happens iff some count differs from its counter. |
| Pass3.CorrectLinks | correct.c:283-290 | The loop relinks every inode of every group and touches no block outside the tables. |
| Pass3.StoredExact | correct.c:288 | The sixteen bits stored for a `char` counter are the true count iff it is at most 127 or in the last 128 values below 2^16. |
| Pass3.StoredStable | correct.c:285 | The stored count compares equal on a second run iff the count modulo 256 is below 128. |
| Pass3.WorldRelinked | correct.c:288 | pass3 keeps the directories, their blocks and every inode field but the count. |
| FileBlocks.MarkFile | correct.c:405-420 | Marks exactly the data blocks of logical indices below the file's block count and the pointer blocks needed to reach them; nothing beyond 65549 blocks. |
| FileBlocks.FileMarksBytes | correct.c:405-484 | For every size a file can have: up to 65549 * 1024 bytes exactly the blocks are marked that hold a byte of the file or are pointer blocks on the way to one; above that, where the 32-bit sum wraps included, none. |
| FileBlocks.CountCovers | correct.c:406 | Logical block k is counted iff the file has a byte at 1024 k, as long as the sum does not wrap. |
| FileBlocks.CountWraps | correct.c:406 | Within 1023 bytes of 2^32 the sum wraps and no block is counted. |
| FileBlocks.MarkIndirect | correct.c:427-444 | The single indirect walk stops at the file's last block and marks that range. |
| FileBlocks.MarkDoubleIndirect | correct.c:451-484 | All three stages mark the range; the nested loops stop in the right pointer block. |
| FileBlocks.ThresholdIff | correct.h:7-8 | A file within reach of two levels is marked as it should be iff it has at most 65549 blocks. |
| UsedBlocks.MarkTree | correct.c:360-399 | The recursive walk adds exactly the blocks of this directory's tree, or of this file. |
| UsedBlocks.TreeUsedIff | correct.c:360-399 | The blocks marked are those of the directories the walk reaches and of the files they name. |
| UsedBlocks.TreeUsedBytes | correct.c:360-420 | A block is marked iff it belongs to a directory that the walk reaches, or holds a byte of, or leads to one of, a regular file that such a directory names below the dots. |
| UsedBlocks.FileUsedBytes | correct.c:366-373 | A named file adds blocks iff its mode says regular file, and then those of its bytes. |
| Bitmap.LoadBitmap | dataBlock.c:29-40 | The buffer is the groups' bitmap blocks end to end. |
| Bitmap.WriteBitmap | dataBlock.c:58-67 | The disk's bitmaps then are the buffer, so loading them gives it back; blocks outside the bitmaps keep their bytes. |
| Bitmap.GetBit | dataBlock.c:91-100 | Shifting the signed char right and masking gives the buffer's binary digit of that object. |
| Bitmap.ShiftMaskIsBit | dataBlock.c:99 | The arithmetic shift of a negative char does not disturb the masked digit. |
| Bitmap.FixBit | dataBlock.c:76-82 | Flips the bit of one block and of no other block. |
| Bitmap.FlipOneBit | dataBlock.c:81 | Exclusive or, digit by digit, with 1 shifted by k flips binary digit k and no other. |
| Bitmap.XorBit | dataBlock.c:81 | Every digit of an exclusive or is the sum of the digits modulo 2. |
| Bitmap.PartitionIndexIff | dataBlock.c:76-105 | The partition-wide index finds every object's own bit, (x-1) mod per-group of group (x-1) div per-group, iff there is one group or each group fills its bitmap blocks. |
| Bitmap.SeenIsOwn | inode.c:117-147 | In those geometries the bit the partition-wide index reads on the disk is the object's own bit, in its own group's bitmap. |
| Bitmap.SecondGroupMissed | inode.c:117-147 | Otherwise the first object of the second group is looked up in the wrong place. |
| Bitmap.FlatIsSeen | inode.c:117-147 | The buffer's bit of an object is the bit of that index on the disk. |
| Pass4.Pass4 | correct.c:299-355 | Every verified block's own bit is set iff the tree uses the block, every table block's own bit is set, every other bit is unchanged, no block outside the bitmaps changes, and a write happens iff some bit was wrong. |
| Pass4.CheckData | correct.c:317-331 | Visits the blocks of `Visits` in that order: each block outside the groups' skipped part once, ascending, none at or beyond the end; each visited bit then is what the tree asks for, and the flag tells whether one was not. |
| Pass4.CheckGroup | correct.c:318-330 | The inner loop visits the blocks of `GroupRun` from where it starts and leaves `block_id` behind them. |
| Pass4.GroupOpens | correct.c:317-330 | With `block_id` at block 1 + i * blocks_per_group before group i, it is at the next group's first block, or past the end, after it. |
| Pass4.CheckTables | correct.c:334-347 | Afterwards every table block's bit is set, and the flag tells whether one was not. |
| Pass4.NothingFound | correct.c:349-351 | The error flag stays down iff every bit was right already. |
| Pass4.LoopsFix | correct.c:308-347 | The two loops together leave exactly the wanted bits. |
| Pass4.VisitsIff | correct.c:309-330 | In any geometry the first loop visits no block at or beyond the end iff no group has a part to verify or the last group's first data block is on the disk. |
| Pass4.GroupTooMany | correct.c:309-330 | With one block more than a group holds, the count of groups is one too many for the blocks, and the loop verifies a block that lies a whole skipped part beyond the end. |
| Pass4.LastGroupIff | correct.c:309-330 | The same condition as a test on the superblock's fields: the remainder of blocks_count - 1 by the group size exceeds the skipped part. |
| Partition.ReadPartitionEntry | partitionEntry.c:103-110 | Type, start (wrapping) and length of the entry at an offset. |
| Partition.ReadEbr | partitionEntry.c:26-57 | Loop and recursion together compute the end of the walk, whenever it has one. |
| Logical.LogicalFoundIff | partitionEntry.c:26-57 | read_ebr comes to entry e for number n iff e is logical partition n - 5 of the list that the sectors hold: each entry is read at the first sector of a range and ends inside it or with it, an entry of type 5 gives the next range, after any other the rest of the range is next. |
| Logical.LogicalMissingIff | partitionEntry.c:33-55 | It comes to an invalid entry, or the program exits, iff that list can go no further (empty range, entry reaching beyond it, or first sector not on the device) and is too short. |
| Logical.TrailResult | partitionEntry.c:26-57 | A walk along part of the list finds its members in order, whatever lies behind them. |
| Logical.InfoOnBytes | partitionEntry.c:67-110 | Numbers 1 to 4 are read at bytes 434 + 16 n (type), 438 + 16 n and 442 + 16 n of the boot sector; higher numbers are looked for below its first entry of type 5, and are invalid without one. |
| Partition.ReadPartitionInfo | partitionEntry.c:67-96 | The first four numbers are the primary entries; others are walked below the first extended entry, and are invalid without one. |
| Partition.HaltsIff | partitionEntry.c:33-55 | read_ebr ends iff its walk meets no non-empty extended entry that names the sector it is read from; only sectors the walk reads must hold entries that do not wrap. |
| Partition.MeasureFalls | partitionEntry.c:33-55 | A walk that never meets such an entry ends, by the lexicographic measure (numbers left, sectors left). |
| Partition.ForwardHalts | partitionEntry.c:33-55 | If every extended entry the walk reads starts behind its own sector, read_ebr ends. |
| Partition.InsideOutermost | partitionEntry.c:44-47 | Every valid result lies inside the outermost extended range, through all nesting, if the entries the walk reads do not wrap. |
| Partition.NoOverlap | partitionEntry.c:50-54 | Of two valid results the one with the larger number starts at or after the other's end. |
| Partition.FirstExtended | partitionEntry.c:80-85 | The extended entry that is walked is the first one. |
| Witness.SampleIsRepairable | correct.c:489-518 | The preconditions can be met: concrete images are repairable, with directories 12 and 13 and a file or symbolic link 14 to rescue. |
| Witness.FileClobbered | correct.c:216-221 | On every repaired state of that image the file's only block, zeros before, holds lost+found's number at bytes 12 to 15. |
| Witness.LinkExits | correct.c:216-218 | With the link's text in place of a block number, round 14 and no other reads a block beyond the disk. |
| Witness.ExitAtLink | correct.c:489-518 | On that image the program exits in pass2 at inode 14, so that link counts and block bitmap stay unrepaired. |
| Witness.RewriteMisses | correct.c:216-221 | A concrete directory block with a first record of 16 bytes keeps the root as its second entry. |

## Left out

- readwrite.c, option parsing, messages and the driver loop over partitions: reads and writes are total on the blocks of a partition, whose sector offset is fixed.
- superBlock.c and groupDescriptor.c: the fields used are given as a `Geometry`; decoding them follows from the codec lemmas.
- Block sizes other than 1024: the thresholds, the descriptor block and block numbering from 1 assume it, so get_block_size is not modelled.
- 32-bit wrap of group, table and bitmap arithmetic and of block numbers turned into sectors: numbers there are unbounded; block counts, parsed fields, partition sectors, file sizes and counters do wrap in the model.
- Triple indirect blocks, long symbolic links, special files, and the bits of superblock, descriptor and bitmap blocks: the code does not treat them.
- search_dir_entry_r, get_dir_name, parse_name, print_entry_name_in_dir: the repair does not use them.
- search_dir_entry on a directory without blocks: it returns nothing defined, and the root always has one.
- Partition.ReadEbr: the start and length of an invalid result are not modelled, being uninitialised in the source; reading past the device ends the program and is the outcome `Exit`.
- Fsck.CorrectPartition: its precondition excludes orphan trees whose numbers do not grow downwards and stale `..` entries that name a larger live orphan; those disks are `AnyRun.CorrectAnyOrder`'s, whose link counts are what the walk counts: a directory that has got two names is walked, and its entries counted, twice.
- Pass2.Exits: a first block number at or past the partition's end is taken to lie beyond the device, where read_sectors ends the program; with another partition behind this one the block read and written would be that partition's.
- The repair after an exit: the entry in lost+found has been written by then, so a further run finds the inode named; that run is not followed.
- Outcome.LostIff: an entry of lost+found hidden behind a zero inode and an entry that found no block are both "without room"; which of the two happens is `LostFound.LandsIffComplete`.
