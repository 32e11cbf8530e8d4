# Ownership, shared segments and ring lists of AnekVideo, verified

This project models three parts of AnekVideo in Dafny and proves what callers rely on:

* **The talloc allocator** (`ccan/talloc/talloc.c`). Chunks form a forest in intrusive sibling lists, and
  reference handles, which are chunks themselves, add further owners. Freeing a chunk runs destructors, drops
  references, re-parents what cannot be freed, and recurses.
* **The shared-memory segments** (`src/shm.c`, with the size arithmetic of `src/util.h` and the number parser of
  `src/util.c`). Creators, readers, cleaners and process deaths interleave over one namespace of segments.
* **The intrusive ring list** (`ccan/list`): insertion, deletion, the consistency check, and deletion while
  iterating.

## How the model is laid out

The allocator has two layers.

* The **heap** is the class `TallocHeap.Talloc`. Its fields are the header fields `next`, `prev`, `parent`, `child`,
  `refs`, `destructor`, `size` and the loop flag, indexed by the address of the chunk and rewritten in place with the
  loops and branches of the C functions. An address has an entry as long as the chunk is alive, so every read and
  write proves that it does not touch released memory.
* The **forest** (`Forests.Forest`) is the state a caller thinks of: the list of children of every chunk, its parent,
  the list of references to it, its destructor. `Forests.Free` and `Forests.Drain` say what a free means on it. Every
  heap method states the new forest as a function of the old one; the theorems are about these functions.

| files | content |
|---|---|
| `Seqs`, `Tlist`, `ChildLists`, `RefLists`, `Siblings`, `RefLinks`, `Walks` | lists as sequences, and the pointer fields that spell them out |
| `Forests`, `Ownership`, `FreeRounds`, `DownSets`, `FreeTheorem`, `FreeResults` | the meaning of a free, round by round, and what it comes to for a caller |
| `ChildOrder`, `DestructorOrder`, `DestructorResults`, `OwnerOrder`, `InnerReferences` | the order of children and destructors, without and with references, and references from below |
| `StaleReads`, `SafeFrees`, `FreeLimits`, `Witnesses` | when a free walks through released memory, and runs that show the limits |
| `NullContext`, `NullSteps`, `NullOrder` | freeing the null context, when that ends, and in which order |
| `OuterReferences`, `ChildReach`, `ChildFreed`, `ChildRounds`, `FrontHandles` | the same in terms of the children alone, for references from outside |
| `Operations`, `Acyclicity`, `TopLevel`, `Unlinking`, `Renaming`, `Runs` | the other calls, and what every run keeps |
| `Traversal`, `Sizes`, `StealResults` | counting, and what a steal does to the whole tree |
| `AllocSteps`, `TallocSteps`, `TallocCalls`, `Fences`, `Talloc` | the heap |
| `ArraySizes`, `TallocStrings` | resizing to a number of elements, and the strings in chunks |
| `ShmLayout`, `SegmentNames`, `Numerals` | sizes and names, and what every spelling of a number is read as |
| `ShmProtocol`, `ShmProgress`, `SharedMemory` | the protocol as atomic steps, what it keeps and what it gets done, and the calls of one process |
| `Rings` | the ring list |

A destructor is a fixed decision: none, accepts, refuses, or the destructor of a handle. "Acyclic" means that the
graph of child edges and of edges from the context of a handle to its target has no cycle. `NULL` as a context stands
for the null context, which may itself be absent. `OwnedIn(f, b)` says that every reference to a chunk in `b` hangs from
a context other than the null context; the results about what a free of `p` comes to ask this of the references to chunks
below `p`, and of no other.

`SafeToFree(f, p)` says that freeing `p` in state `f` never walks through a chunk that this free has released (see
the findings). The heap methods demand it wherever they can reach a free, the runs allow only such frees, and the
theorems about what a free comes to (`FreeCall`) assume it. `SafeByChildren` says exactly when it holds in terms of the
tree before the call, if references come from outside; `ShelteredIsSafe` and `QuiescentIsSafe` are simple conditions
that suffice. A free that only takes a reference or is refused is always safe (`AttemptIsSafe`).

## Model

| member | source | states |
|---|---|---|
| TallocHeap.Talloc.FreeChunk | ccan/talloc/talloc.c:472-562 | The recursive free on the header fields, references, destructor, loop flag and re-parenting included: it ends, reads no released chunk, leaves lists and marks consistent, and its result and new state are those of `Forests.Free`. |
| TallocHeap.Talloc.EmptyChunk | ccan/talloc/talloc.c:533-552 | The loop over the children ends with no child left and the state of `Drain`, also when a round hands a child back to the chunk that is being emptied. |
| TallocHeap.Talloc.Adopt | ccan/talloc/talloc.c:546-550 | A child that survives goes to the owner chosen before its free, or to the parent of the emptied chunk when that choice was the null context, found by walking the emptied chunk's stale `prev`. |
| TallocHeap.Talloc.TryDestructor | ccan/talloc/talloc.c:505-516 | False exactly when the destructor refuses, and then nothing has changed; otherwise the destructor is cleared and has run once. |
| TallocHeap.Talloc.ReferenceDestructor | ccan/talloc/talloc.c:319-324 | A handle that is freed leaves the reference list of its target, which stays linked in the old order. |
| TallocHeap.Talloc.FreePtr | ccan/talloc/talloc.c:822-832 | A free from outside yields exactly the forest and result of the abstract free, keeps the size of every survivor, and does nothing but fail on NULL. |
| TallocHeap.Talloc.ParentChunk | ccan/talloc/talloc.c:178-190 | Walking `prev` to the head of the list and reading its `parent` gives the parent, for every chunk of every list and for chunks that are being emptied. |
| TallocHeap.Talloc.IsParent | ccan/talloc/talloc.c:391-410 | The walk to the top ends and answers true exactly for the chunk itself and its ancestors. |
| TallocHeap.Talloc.Steal | ccan/talloc/talloc.c:417-467 | The pointer updates in all cases of a move (to the top, to a new parent, to itself, from the head or the middle of a list) put the chunk in front of the children of the new parent and leave every other list alone. |
| TallocHeap.Talloc.StealTo | ccan/talloc/talloc.c:564-572 | A steal from outside results in exactly the forest with the chunk moved. |
| TallocHeap.Talloc.Alloc | ccan/talloc/talloc.c:225-289 | A new chunk is the first child of its context, without children, references or destructor; sizes from the limit on and failed memory requests change nothing. |
| TallocHeap.Talloc.Reference | ccan/talloc/talloc.c:362-386 | A new handle below the context is the newest reference to its target and nothing else changes; without memory nothing does. |
| TallocHeap.Talloc.Unreference | ccan/talloc/talloc.c:579-601 | The newest reference from the given context is dropped; when there is none the result is -1 and the whole heap is as before. |
| TallocHeap.Talloc.UnlinkFrom | ccan/talloc/talloc.c:607-662 | Removing an owner follows the abstract removal in every case: a reference, the parent with references left, the last owner, no owner. |
| TallocHeap.Talloc.SetDestructor | ccan/talloc/talloc.c:297-301 | Only the destructor of this chunk changes. |
| TallocHeap.Talloc.Realloc | ccan/talloc/talloc.c:840-915 | Size 0 frees, sizes from the limit on and referenced chunks are refused, NULL allocates; a resized chunk that moved leaves the same forest with the old address renamed to the new one, in every pointer field. |
| TallocHeap.Talloc.SizeBelow | ccan/talloc/talloc.c:932-953 | On any child graph, parent loops included, the count ends, adds the size of each visited chunk once, and leaves all marks as they were. |
| TallocHeap.Talloc.BlocksBelow | ccan/talloc/talloc.c:975-994 | The same for the number of chunks. |
| TallocHeap.Talloc.TotalSize | ccan/talloc/talloc.c:955-970 | NULL stands for the null context, and for 0 when there is none. |
| FreeTheorem.FreeSweeps | ccan/talloc/talloc.c:472-562 | By induction over the two functions of the free: every survivor keeps its surviving owners in order or was adopted, and every chunk that went had accepted and lost all owners. Only references to chunks below the freed one have to hang from contexts other than the null context. |
| FreeResults.ReleasesUnreachable | ccan/talloc/talloc.c:472-562 | Freeing an unreferenced chunk, nothing refusing and no reference to a chunk below hanging from the null context, releases exactly the chunks below it that no walk along child and reference edges from a chunk outside reaches. |
| FreeResults.ReleasedExactly | ccan/talloc/talloc.c:533-552 | Under the same condition on references another chunk is released exactly when its destructor accepts and each of its owners is released. |
| FreeResults.SurvivorOwners | ccan/talloc/talloc.c:539-550 | The owners of a survivor afterwards are its old owners that survived, in the old order; one that lost them all refused, and its one owner is the parent that the freed chunk had, or the null context. |
| FreeResults.ReleasesToRefusers | ccan/talloc/talloc.c:505-552 | Without references the chunks released are exactly those below with no refusing chunk on the way: the subtrees of the topmost refusers survive. |
| FreeResults.SurvivorParent | ccan/talloc/talloc.c:546-550 | A survivor keeps its parent while that lives, and otherwise refused and hangs from the old parent of the freed chunk, even when that chunk was not the head of its list. |
| FreeResults.SurvivorChildren | ccan/talloc/talloc.c:505-552 | A survivor other than the adopter has the same list of children as before. |
| FreeResults.AdopterChildren | ccan/talloc/talloc.c:546-550 | The adopter keeps its surviving children in order, behind the adopted topmost refusers. |
| DestructorResults.FreedDestructors | ccan/talloc/talloc.c:505-516 | The destructors that run successfully are those of exactly the released chunks that have one, each once, and none after that of a chunk below it. |
| DestructorOrder.FreeCalls | ccan/talloc/talloc.c:505-552 | The log of successful destructors is the pre-order traversal of the tree, cut at the topmost refusers. |
| OwnerOrder.DestructorsOfOwnersFirst | ccan/talloc/talloc.c:472-562 | One free, whatever references there are: the destructors that succeed are those of exactly the released chunks that have one, each once, and none after that of a chunk that its chunk owned, as parent or through a reference, directly or not. |
| OwnerOrder.SurvivorsKeepWhatTheyOwn | ccan/talloc/talloc.c:533-552 | Everything that a surviving chunk other than the null context owned, but for the freed chunk itself, is alive and still owned by it. |
| InnerReferences.FreesWholeSubtree | ccan/talloc/talloc.c:483-498 | When all references to a chunk come from below it and nothing else there is referenced or refuses, one free succeeds and releases exactly its subtree. |
| InnerReferences.WholeSubtreeIsSafe | ccan/talloc/talloc.c:391-410 | Such a free meets no released chunk on its walks. |
| Unlinking.FreeTakesAllReferences | ccan/talloc/talloc.c:483-498 | With k references from elsewhere, k frees fail, each takes the newest reference left and none reads released memory; the next one releases the chunk unless its destructor refuses. |
| Unlinking.AttemptIsSafe | ccan/talloc/talloc.c:483-511 | A free that meets a reference from elsewhere, or a refusal, walks through no released chunk, whatever the sibling in front is. |
| SafeFrees.AttemptsAreSafe | ccan/talloc/talloc.c:483-562 | When nothing further down refuses and all references to chunks there hang outside, from contexts other than the null context, every one of these frees is safe, the releasing one included. |
| Acyclicity.FreeSame | ccan/talloc/talloc.c:472-562 | The outcome of a free does not depend on how the acyclicity of ownership is witnessed. |
| StaleReads.SafeExactly | ccan/talloc/talloc.c:526-547 | A free walks through no released chunk if and only if the sibling in front of the freed chunk, if any, is still alive at the last of the walks through the freed chunk, if any: the walks of line 547 and those of line 404 from references below. |
| StaleReads.LastWalkDecides | ccan/talloc/talloc.c:391-410 | The chunks alive only become fewer from walk to walk, so the last walk decides for all. |
| SafeFrees.ShelteredIsSafe | ccan/talloc/talloc.c:526-547 | Safe when the sibling in front is not a reference to a chunk further down in the freed one. |
| SafeFrees.QuiescentIsSafe | ccan/talloc/talloc.c:526-547 | Safe, whatever the sibling in front is, when nothing further down refuses and all references to chunks there hang outside, from contexts other than the null context. |
| FrontHandles.SafeByChildren | ccan/talloc/talloc.c:526-550 | When all references to chunks below hang outside and none from the null context: safe if and only if no child reaches, through chunks that give way, the chunk whose newest reference is the sibling in front, while that child or a later one reaches an unreferenced chunk that refuses. |
| OuterReferences.OuterChild | ccan/talloc/talloc.c:483-493 | In that case freeing a child causes no walk through the chunk that is being emptied. |
| ChildFreed.GoesExactly | ccan/talloc/talloc.c:533-552 | And a chunk below the freed child goes exactly when its parent goes and it is neither referenced nor refuses. |
| ChildFreed.AcceptedHandle | ccan/talloc/talloc.c:483-497 | And a handle outside goes exactly when it is the newest reference to a chunk that the free of the child reaches. |
| Fences.BackReleased | ccan/talloc/talloc.c:404 | A walk through the emptied chunk reads the header of the sibling its `prev` names, and that header is gone exactly when the sibling is not alive. |
| FreeLimits.RefuserWalksBack | ccan/talloc/talloc.c:546-548 | Whenever the sibling in front is the newest reference to the first child and the second child refuses, the free does walk through the released handle. |
| FreeLimits.CheckWalksBack | ccan/talloc/talloc.c:483-493 | The same when the second child is referenced from a grandchild, although nothing refuses. |
| FreeLimits.NewestContextTakesOver | ccan/talloc/talloc.c:539-550 | A referenced child of an emptied chunk goes to the context of its newest reference if and only if that is not the null context, or the old parent is the null context anyway; else it goes to the old parent. |
| NullContext.EndsExactly | ccan/talloc/talloc.c:533-552 | In every state with a null context that is the only root, and acyclic ownership, as runs keep it: the loop that frees the null context ends if and only if no other chunk refuses, wherever that hangs and whatever references it. |
| NullContext.StuckExactly | ccan/talloc/talloc.c:546-550 | A round of that loop leaves the state as it was if and only if the first child is not referenced and refuses. |
| NullContext.EndsOrSticks | ccan/talloc/talloc.c:533-552 | Within as many rounds as there are chunks to free the loop has ended or has come to such a state. |
| NullContext.AloneAtEnd | ccan/talloc/talloc.c:533-552 | When it has ended, the null context is the only chunk left. |
| TallocHeap.Talloc.NullStep | ccan/talloc/talloc.c:533-552 | One round of the loop on the header fields of the null context, whose own parent is NULL: its new state is that of the abstract round, for which see `HeadLosesNull`, `AcceptedHeadSweeps` and `StuckExactly`. |
| NullOrder.HeadLosesNull | ccan/talloc/talloc.c:539-550 | After a round a referenced first child has lost the null context as owner and no other, and hangs from the context of its newest reference; no other chunk's owners have changed and only that reference is gone. |
| NullOrder.AcceptedHeadSweeps | ccan/talloc/talloc.c:533-552 | After a round that frees the first child every survivor keeps its surviving owners in order, or refused, lost them all and hangs from the null context; no reference to a chunk below that child may hang from the null context. |
| NullOrder.NullSurvivorsOwn | ccan/talloc/talloc.c:533-552 | After any number of rounds, whatever references there are, a chunk that is alive owns everything that it owned. |
| NullOrder.NullDestructorsInOrder | ccan/talloc/talloc.c:533-552 | And the destructors that succeeded are those of exactly the released chunks that have one, each once, and none after that of a chunk that its chunk owned, as parent or through a reference, directly or not. |
| TallocHeap.Talloc.EmptyNullContext | ccan/talloc/talloc.c:1186-1190 | The loop on the fields ends when no other chunk refuses, and then only the null context is alive. |
| Witnesses.NullContextNeverEmpties | ccan/talloc/talloc.c:1186-1190 | A run, with null tracking on, to a state in which a chunk accepts and its child refuses: no number of rounds empties the null context. |
| Witnesses.OrdinaryIsSafe | ccan/talloc/talloc.c:526-547 | A run of four calls to a state whose free is safe although the sibling in front is released on the way. |
| Witnesses.RefuserIsUnsafe | ccan/talloc/talloc.c:546-548 | A run of calls to a state whose free reads a released chunk in line 547. |
| Witnesses.InnerReferenceIsUnsafe | ccan/talloc/talloc.c:404 | A run to a state, nothing refusing and no reference from the null context, whose free reads a released chunk in line 404. |
| Witnesses.NullReferenceLost | ccan/talloc/talloc.c:546-549 | A run to a state in which freeing the parent hands a child referenced from the null context to the grandparent instead. |
| Unlinking.OwnerRemovedCases | ccan/talloc/talloc.c:607-662 | What unlinking does to the owners of the chunk, by the position of the context among them, and that nobody else's owners change. |
| Unlinking.RemovesOneOwner | ccan/talloc/talloc.c:607-662 | Under acyclic ownership exactly one occurrence of the context leaves the multiset of owners; the context of the newest reference becomes the parent when the parent goes; the last owner frees; no owner changes nothing. |
| Unlinking.UnreferencedOwners | ccan/talloc/talloc.c:579-601 | Dropping a reference removes its first occurrence among the later owners of the target, no other chunk and no other owner. |
| Witnesses.UnlinkMissesOwner | ccan/talloc/talloc.c:584-661 | A forest with a null context and one handle at the top: unlinking a chunk from an owner that it has fails and changes nothing. |
| TopLevel.FreeRooted | ccan/talloc/talloc.c:539-550 | No free puts a chunk at the top of the tree when there is a null context. |
| Runs.RunSound | ccan/talloc/talloc.c:225-467 | In every state of every run of allocations, references, destructors, steals, unlinks, frees and moves: the lists are consistent, ownership is acyclic, nothing is half freed, and a null context is the only root. |
| Runs.SoundLists | ccan/talloc/talloc.c:89-104 | In such a state each chunk is in the list of its parent and in no other, and its reference list holds exactly the live handles that target it: no chunk goes while a handle points to it. |
| Runs.NextSound | ccan/talloc/talloc.c:472-662 | Each single call keeps that. |
| Acyclicity.StealKeepsAcyclic | ccan/talloc/talloc.c:417-467 | A steal keeps ownership acyclic if and only if the moved chunk does not own its new parent, or is it. |
| Acyclicity.ReferenceKeepsAcyclic | ccan/talloc/talloc.c:362-386 | A reference keeps ownership acyclic if and only if its target does not own the context. |
| StealResults.StealRelocates | ccan/talloc/talloc.c:417-467 | A steal outside the moved subtree changes the ancestors of exactly the chunks in it: they keep those up to the moved chunk and get the new parent and its ancestors. |
| StealResults.StealKeepsOrder | ccan/talloc/talloc.c:452-464 | The moved chunk is the first child of its new parent, and all other siblings everywhere keep their order. |
| StealResults.StealConserves | ccan/talloc/talloc.c:932-953 | Such a steal conserves the total size summed over all top-level chunks, also when it closes a cycle through references. |
| Sizes.RootsVisitAll | ccan/talloc/talloc.c:932-953 | Counting from all top-level chunks meets every chunk exactly once. |
| Traversal.VisitsSubtree | ccan/talloc/talloc.c:932-994 | The traversal with loop marks meets exactly the chunks below its start, each once, even when the start lies below itself. |
| Renaming.RenamedInv | ccan/talloc/talloc.c:894-908 | The forest with one chunk renamed is as consistent as before. |
| Renaming.PatchesRename | ccan/talloc/talloc.c:896-908 | Telling the four neighbours of a moved header its new address renames every pointer to it: none to the old address is left. |
| TallocStrings.ChainHolds | ccan/talloc/talloc.c:1249-1396 | However pieces without NUL are appended, the chunk holds the first text and all pieces in order, its size is the length of the text plus one, and the first NUL is its last character. |
| TallocStrings.AppendsAgree | ccan/talloc/talloc.c:1265-1378 | Appending behind the first NUL and appending at size - 1 come to the same if and only if the only NUL is the last character. |
| TallocStrings.Strings.Strdup | ccan/talloc/talloc.c:1249-1260 | The copy is a new first child of the context with room for the text and the NUL; NULL stays NULL. |
| TallocStrings.Strings.Strndup | ccan/talloc/talloc.c:1291-1306 | The copy holds the characters before the first NUL, at most n, and reads no further. |
| TallocStrings.Strings.Vasprintf | ccan/talloc/talloc.c:1308-1334 | The formatted text in a new chunk; failed formatting or memory changes nothing. |
| TallocStrings.Strings.AppendString | ccan/talloc/talloc.c:1265-1286 | For every length: the string, perhaps moved, is what was before its first NUL and the new text; the old string is kept when the 32-bit count is over the limit; released when the count is 0; and when the count was cut to something else the copy would run over the end of the chunk, which holds only the first characters. Appending NULL returns the string. |
| TallocStrings.Strings.VasprintfAppend | ccan/talloc/talloc.c:1358-1396 | The same at the end of the chunk; an empty or failed formatting returns the string as it is, NULL starts a new one. |
| TallocHeap.Talloc.ReallocArray | ccan/talloc/talloc.c:1446-1452 | For every number of elements: refused when the 32-bit count is at or over the limit, the chunk freed and NULL returned when the count is 0, otherwise resized to the count, in place or moved. |
| ArraySizes.AsAskedExactly | ccan/talloc/talloc.c:1446-1452 | Such a resize of at least one element leaves everything as it was or gives the size asked for if and only if the number is below 2^32, or the count that is left of it is refused: by the limit, a reference, the memory, or a destructor. |
| ArraySizes.WrapReleases | ccan/talloc/talloc.c:1446-1452 | Resizing an unreferenced chunk that does not refuse to 2^32 bytes releases it. |
| Witnesses.ResizeReleases | ccan/talloc/talloc.c:1446-1452 | A run to a state in which that happens, by a free that is safe. |
| ShmProtocol.CleanupIsSafe | src/shm.c:208-268 | In every interleaving of creators, cleaners and deaths a cleaner removes only names of segments whose creator is dead, and a segment in use by a live creator has its name. |
| ShmProgress.StampedForever | src/shm.c:104-112 | In every later state of every run the segment that a creator has put in use has its size, the marker, and the process id of that creator, whatever is written to it and whoever dies. |
| ShmProgress.CreatorGetsThrough | src/shm.c:85-112 | The steps of a creator can be taken in turn, and leave a linked segment of the right size that holds exactly the process id and the marker. |
| ShmProgress.OwnerGivesBack | src/shm.c:180-206 | The owner can give its segment back, and then the name is gone and nothing else has changed. |
| ShmProgress.CleanerGetsThrough | src/shm.c:225-262 | When a creator that had finished is dead and its name is linked, a new cleaner can attach, read the size, the marker and the process id, probe, and unlink, in turn; afterwards the name is gone and nothing else has changed. |
| ShmProgress.CleanerFinishes | src/shm.c:225-262 | However the steps of others come in between: a cleaner that neither dies nor gives up has removed the name once it has taken the steps it had left. |
| ShmProgress.RemovableExactly | src/shm.c:208-268 | The name that a dead creator left can be removed by some steps of some processes if and only if the creator had stored process id and marker and the size is acceptable. |
| ShmProtocol.MarkerImpliesPid | src/shm.c:238-248 | A cleaner that saw the marker never finds the process id unset, and what it finds is the creator's. |
| ShmProtocol.VanishingNames | src/shm.c:195-260 | A name goes only by its owner, or by a cleaner when the owner is dead. |
| ShmProtocol.StepOk | src/shm.c:53-268 | Every step of every process keeps what each creator and cleaner knows of its segment. |
| SharedMemory.AvShm.CreateRw | src/shm.c:53-127 | The result is 0 exactly when no call that is made fails and, for a shared segment, the random name is not among those left by the cleanup. Then the memory has the rounded size and is mapped with the length that freeing unmaps, and a shared segment holds the creator's process id and the marker and nothing else; on failure names and mappings are as the cleanup left them. No other segment changes. |
| SharedMemory.AvShm.AttachRo | src/shm.c:129-178 | Attaching works if and only if the name is linked, the segment readable and of acceptable size, and neither opening nor mapping fails; failure maps nothing. |
| SharedMemory.AvShm.Free | src/shm.c:180-206 | Freeing unmaps the whole mapping and nothing else, and removes the name exactly if this object created it. |
| SharedMemory.CleanEntry | src/shm.c:217-262 | One directory entry removes exactly the segment it names, if that is abandoned and readable; for which see the next four rows. |
| SharedMemory.NamesExactly | src/shm.c:219-223 | An entry names a segment if and only if it starts with the prefix and the rest is read as the number of the segment. |
| SharedMemory.MadeGoesExactly | src/shm.c:225-262 | A linked segment with both stores of its creator, whatever was written to the caller's bytes, loses its name in a pass if and only if an entry names it, it is readable and of acceptable size, and the process that stored its id is gone. |
| SharedMemory.HalfMadeStays | src/shm.c:238-248 | A segment with neither store, or with the process id only, keeps its name in every pass. |
| SharedMemory.UnmarkedStays | src/shm.c:231-248 | So does every segment without marker, without process id, or too small for them, whoever made it. |
| SharedMemory.Cleanup | src/shm.c:208-268 | A pass removes exactly the abandoned segments that some entry names and leaves no mapping behind. |
| SharedMemory.FullPass | src/shm.c:208-268 | When every segment is listed under its name, the pass removes every abandoned segment and no other. |
| ShmLayout.LayoutFits | src/shm.c:68-110 | For every size to the maximum and every power-of-two page size from a pointer to 64 MiB the segment passes the attach checks, and the marker lies behind the caller's bytes and inside the mapping, where creator and cleaner both compute it. |
| ShmLayout.AcceptedExactly | src/shm.c:150-155 | A created segment passes the attach checks if and only if the rounded request is within the limit. |
| ShmLayout.RoundUpLeast | src/util.h:90-105 | Rounding up gives the least multiple that is not smaller. |
| SegmentNames.AvAtou | src/util.c:33-58 | Success exactly for strings that are wholly a number in 32 bits, with that number; otherwise the right errno. What is read as which number is the subject of the next rows. |
| Numerals.ParsesNumber | src/util.c:33-58 | For every number, spelled in base 10, 8 or 16 with digits of either case, leading zeros, white space and sign in front and anything behind: the number, negated in 64 bits behind a minus sign, or EINVAL or ERANGE, as base 0 of `strtoul` has it (section 7.20.1.4 of ISO C99). |
| Numerals.ParsesZero | src/util.c:42-50 | A single zero, also before a base prefix without digits, is 0, and EINVAL if something follows. |
| Numerals.ParsesNothing | src/util.c:42-50 | Without digits only the empty string is accepted. |
| Numerals.OtherBases | src/util.c:42-58 | Every 32-bit number can be written in hexadecimal and octal with any number of zeros in front, and with a plus sign. |
| Numerals.NegativeExactly | src/util.c:42-53 | A negative number is out of range, unless it is so far below zero that its 64-bit remainder fits 32 bits. |
| SegmentNames.ReadsPrinted | src/shm.c:47-51 | Parsing the printed id in base 0 (section 7.20.1.4 of ISO C99) gives the id back, for every 32-bit value. |
| SegmentNames.NameFits | src/shm.c:47-55 | The printed name of every id fits the buffer. |
| SegmentNames.AliasesExactly | src/util.c:33-58 | What is read as a number is the printed form of that number if and only if it consists of decimal digits without a leading zero; every other readable spelling names a segment under a second name. |
| SegmentNames.SpacedAlias | src/util.c:33-58 | Every segment has such a second name: its number behind a space. |
| SegmentNames.BarePrefixIsZero | src/util.c:42-58 | The empty string is accepted as 0, and is none of these. |
| Rings.Check | ccan/list/list.c:5-33 | On every closed pointer graph, ring or not, the check ends and returns the head exactly when the chain comes back to it with each node naming its predecessor. |
| Rings.IntactRing | ccan/list/list.c:21-32 | What passes the check is a ring if and only if the head's own `prev`, which is not examined, names the last node. |
| Rings.WrongHeadPasses | ccan/list/list.c:21-32 | A head that names itself as `prev` before one entry: the check returns it, and it is no ring. |
| Rings.RingFrom | ccan/list/list.h:149-158 | Any node of a ring may serve as its head. |
| Rings.Init | ccan/list/list.h:81-84 | An initialised head alone is a ring: the empty list. |
| Rings.Add | ccan/list/list.h:113-120 | Prepends to the sequence of entries; only the head, the new node and the old first one are written. |
| Rings.AddTail | ccan/list/list.h:132-139 | Appends; only the head, the new node and the old last one are written. |
| Rings.Del | ccan/list/list.h:149-158 | Removes the node from the sequence; only it and its neighbours are written, and it keeps its fields unless debugging clears them. |
| Rings.IsEmpty | ccan/list/list.h:169-173 | True exactly for a list without entries. |
| Rings.ForEachSafe | ccan/list/list.h:255-259 | Visits every original entry once, in order, while any visited entries are deleted on the way, and leaves the others in order. |

## Findings

What the code does and its callers may not expect, each with a lemma.

* **A free may read memory that it has released.** Lines 526-529 take a chunk off its list without clearing its `prev`.
  Later walks follow that field: line 547, when the chunk looks for its own parent, and line 404, when a reference that
  hangs below the chunk is checked. If the sibling in front is a handle onto a chunk further down, the same free may
  have released it by then. `SafeExactly` gives the exact condition on the walks, and `SafeByChildren` one
  on the tree before the call, for references from outside; `RefuserIsUnsafe` and `InnerReferenceIsUnsafe` are
  runs that end in such a read; `OrdinaryIsSafe` is the common case in which the handle goes and no walk follows.
* **A reference from the null context does not keep a chunk there.** Line 546 takes the null context for "no choice
  made" and hands the chunk to the parent of the freed one (`NewestContextTakesOver`, `NullReferenceLost`).
* **Freeing the null context, as `talloc_disable_null_tracking` does, never ends when any other chunk refuses**, and ends
  when none does (`EndsExactly`). The loop hands a refusing chunk that is not referenced to the null context again
  (`StuckExactly`); one further down comes up to it when the chunks above it go (`NullContextNeverEmpties`).
* **Unlinking the parent fails when the newest reference is a top-level handle from before null tracking.** Its context
  reads as NULL, which line 584 then takes for the null context, and no reference from there is found (the last case of
  `OwnerRemovedCases`; `UnlinkMissesOwner` is such a forest). In runs with a fixed null context this does not happen (`RunSound`, `RemovesOneOwner`).
* **Nothing stops a steal or a reference from closing a cycle** (`StealKeepsAcyclic`, `ReferenceKeepsAcyclic`).
* **Resizing cuts its count to 32 bits.** A chunk that was to have 2^32 elements or more gets fewer, unless the cut count is
  refused (`AsAskedExactly`); with 2^32 bytes it is released (`WrapReleases`, `ResizeReleases`). A string that is appended to
  is then copied over the end of the smaller chunk (`AppendString`). The two appending functions disagree on texts with an
  embedded NUL, and the one that looks for the NUL then shortens the chunk (`AppendsAgree`).
* **The list check does not look at the `prev` of the head** of a list with entries (`IntactRing`, `WrongHeadPasses`).
* **Directory entries other than the printed names are taken for segments**: with spaces, a sign, zeros or a base prefix in
  front of the number (`AliasesExactly`, `SpacedAlias`, `OtherBases`), and the bare prefix for segment 0
  (`BarePrefixIsZero`). Even `-18446744073709551615` is accepted, as 1 (`NegativeExactly`).
* **What a creator leaves that dies before its second store is never cleaned up** (`RemovableExactly`, `HalfMadeStays`).

## Left out

- FrontHandles.SafeByChildren: references that hang below the freed chunk or from the null context; for those `SafeExactly` decides on the walks themselves.
- Destructors that call the allocator; a destructor is a fixed decision, and only that of a handle has an effect.
- TallocHeap.Talloc.EmptyNullContext: ends where the null context has no child left; its own release, setting `null_context` to NULL afterwards, other changes of the null context during a run, and the autofree context are not modelled.
- Names and type names of chunks other than strings, reports, zeroing, allocating arrays and other thin wrappers.
- TallocStrings.Strings.AppendString: what a copy over the end of a chunk overwrites; `overrun` reports it and the model copies nothing.
- External allocators and the lock callbacks.
- Bodies of chunks other than strings and handles; sums of sizes are unbounded integers.
- TallocStrings.Strings.VasprintfAppend: the sum of the old length and a formatted length close to `INT_MAX` overflows a signed int in talloc_vasprintf_append; the model takes the sum, which the size limit refuses.
- The contents of shared segments other than the marker and the process id, file modes, and errors of close and unlink.
- ShmProtocol.CleanupIsSafe: ids and process ids are never used again in a run, and the atomic loads and stores are sequentially consistent steps.
- SharedMemory.Cleanup: no other process acts during the pass; interference is the subject of the protocol. A directory that cannot be opened is the pass over no entries.
- The text that the list check prints before it aborts, and lists inside other structures (`container_of`).
- Device, frame, random, log, buffer and server code.
