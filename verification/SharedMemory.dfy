/**
 Creating, attaching, freeing and cleaning up shared memory segments, without interference: what one
 call does to the names, the segments and the mappings of the system.
 */
module SharedMemory {
  import opened ShmLayout
  import opened SegmentNames
  import opened ShmProtocol

  /** The system call that fails during a call, if any; opening includes reading the size. */
  datatype Fault = NoFault | OpenFails | TruncateFails | MapFails

  class System {
    const page: nat
    /** the processes that exist */
    var alive: set<Pid>
    /** the segments that this process may open */
    var readable: set<Id>
    var linked: set<Id>
    var segments: map<Id, Segment>
    /** what is mapped where, with its length */
    var mappings: map<int, nat>
    var nextAddress: int

    ghost predicate Valid()
      reads this
    {
      && (exists k: nat :: page == Pow2(k) && POINTER_SIZE <= Pow2(k) <= MAX_SHM_SIZE)
      && linked <= segments.Keys
      && 0 < nextAddress && forall p :: p in mappings ==> 0 < p < nextAddress
    }

    method Mmap(length: nat) returns (p: int)
      requires Valid()
      modifies `mappings, `nextAddress
      ensures Valid() && p > 0 && p !in old(mappings) && mappings == old(mappings)[p := length]
    {
      p := nextAddress;
      mappings := mappings[p := length];
      nextAddress := nextAddress + 1;
    }

    /** Only whole mappings are given back. */
    method Munmap(p: int, length: nat)
      requires Valid() && p in mappings && mappings[p] == length
      modifies `mappings
      ensures Valid() && mappings == old(mappings) - {p}
    {
      mappings := mappings - {p};
    }

    /** Segment `id` was created completely by a process that is gone. */
    predicate Abandoned(id: Id)
      reads this`segments, this`alive
    {
      && id in segments && SizeAccepted(segments[id].size) && segments[id].size >= MARKER_SIZE
      && Word(segments[id], MarkerOffset(segments[id].size)) == MARKER
      && Word(segments[id], MarkerOffset(segments[id].size) + 4) != 0
      && Word(segments[id], MarkerOffset(segments[id].size) + 4) !in alive
    }

    /** The segments that a cleaner which finds their names removes. */
    ghost function Doomed(): set<Id>
      reads this`segments, this`alive, this`readable
    {
      set id | id in segments && id in readable && Abandoned(id)
    }
  }

  class AvShm {
    var id: Id
    /** 0 for NULL */
    var ptr: int
    var size: nat
    var doUnlink: bool
    var shared: bool

    constructor ()
      ensures id == 0 && ptr == 0 && size == 0 && !doUnlink && !shared
    {
      id, ptr, size, doUnlink, shared := 0, 0, 0, false, false;
    }

    /** The memory of this object is mapped with the length that freeing it unmaps. */
    ghost predicate MappedIn(os: System)
      reads this, os
    {
      size > 0 && os.page > 0 && ptr in os.mappings && os.mappings[ptr] == if shared then PageAlign(size, os.page) else size
    }

    /** Map the existing segment `which` for reading. */
    method AttachRo(os: System, which: Id, fault: Fault) returns (ret: int)
      requires os.Valid()
      modifies this, os`mappings, os`nextAddress
      ensures os.Valid() && id == which && (ret == 0 || ret == -1)
      ensures ret == -1 ==> os.mappings == old(os.mappings)
      ensures ret == 0 ==> MappedIn(os) && ptr !in old(os.mappings) && os.mappings - {ptr} == old(os.mappings) && shared && !doUnlink
      ensures ret == 0 ==> which in os.linked && which in os.readable && size == os.segments[which].size && SizeAccepted(size)
      ensures ret == 0 <==>
        fault != OpenFails && fault != MapFails && which in os.linked && which in os.readable && SizeAccepted(os.segments[which].size)
    {
      id := which;
      if which !in os.linked || which !in os.readable || fault == OpenFails {
        return -1;
      }
      var stSize := os.segments[which].size;
      if stSize <= 0 || stSize > MAX_SHM_SIZE + MARKER_SIZE || Align(stSize) != stSize {
        return -1;
      }
      size := stSize;
      if fault == MapFails {
        return -1;
      }
      PagePositive(os);
      ptr := os.Mmap(PageAlign(size, os.page));
      doUnlink, shared := false, true;
      assert os.mappings - {ptr} == old(os.mappings);
      return 0;
    }

    /** Unmap the memory, remove the name if this object made it, and clear the object. */
    method Free(os: System)
      requires os.Valid() && ptr != 0 && MappedIn(os)
      modifies this, os`mappings, os`linked
      ensures os.Valid() && os.mappings == old(os.mappings) - {old(ptr)}
      ensures os.linked == if old(shared) && old(doUnlink) then old(os.linked) - {old(id)} else old(os.linked)
      ensures id == 0 && ptr == 0 && size == 0 && !doUnlink && !shared
    {
      if !shared {
        os.Munmap(ptr, size);
      } else {
        os.Munmap(ptr, PageAlign(size, os.page));
        if doUnlink {
          os.linked := os.linked - {id};
        }
      }
      id, ptr, size, doUnlink, shared := 0, 0, 0, false, false;
    }

    /** Create a segment, or private memory, of `request` bytes. The id is random, `pid` is the calling process,
        and the abandoned segments in the directory are removed first. */
    method CreateRw(os: System, request: nat, share: bool, random: nat, pid: Pid, entries: seq<string>, fault: Fault) returns (ret: int)
      requires os.Valid() && 0 < request <= MAX_SHM_SIZE && pid > 0
      modifies this, os`linked, os`mappings, os`nextAddress, os`segments
      ensures os.Valid() && (ret == 0 || ret == -1)
      ensures ret == 0 <==>
        if share then fault == NoFault && random !in Remaining(old(os.linked), entries, old(os.Doomed())) else fault != MapFails
      ensures os.segments - {random} == old(os.segments) - {random}
      ensures !share || random in Remaining(old(os.linked), entries, old(os.Doomed())) || fault == OpenFails ==> os.segments == old(os.segments)
      ensures ret == -1 ==> os.linked == Remaining(old(os.linked), entries, old(os.Doomed())) && os.mappings == old(os.mappings)
      ensures ret == 0 ==> MappedIn(os) && ptr !in old(os.mappings) && os.mappings - {ptr} == old(os.mappings) && ptr != 0
      ensures ret == 0 ==> shared == share && doUnlink == share
      ensures ret == 0 && !share ==>
        && id == 0 && os.page > 0 && size == PageAlign(request, os.page)
        && os.linked == Remaining(old(os.linked), entries, old(os.Doomed()))
      ensures ret == 0 && share ==>
        && id == random && os.page > 0 && size == SegmentSize(request, os.page)
        && os.linked == Remaining(old(os.linked), entries, old(os.Doomed())) + {random}
        && SizeAccepted(size) && Made(os.segments, random, pid, size - MARKER_SIZE)
        && (os.Abandoned(random) <==> pid !in os.alive)
    {
      hide Remaining, Listed;
      Cleanup(os, entries);
      ghost var mapped := os.mappings;
      Fits(os, request);
      var n := PageAlign(request, os.page);
      if share {
        ret := MakeSegment(os, random, n, pid, fault);
        shared := if ret == 0 then share else shared;
        return;
      }
      id := 0;
      size := n;
      if fault == MapFails {
        return -1;
      }
      ptr := os.Mmap(size);
      doUnlink, shared := false, share;
      assert os.mappings - {ptr} == mapped;
      return 0;
    }

    /** The shared part of creating: a new name, the size, the mapping, the process id and then the marker. */
    method MakeSegment(os: System, random: nat, n: nat, pid: Pid, fault: Fault) returns (ret: int)
      requires os.Valid() && n > 0 && pid > 0 && SizeAccepted(n + MARKER_SIZE)
      modifies `id, `size, `ptr, `doUnlink, os`linked, os`mappings, os`nextAddress, os`segments
      ensures os.Valid() && (ret == 0 || ret == -1)
      ensures ret == 0 <==> fault == NoFault && random !in old(os.linked)
      ensures os.segments - {random} == old(os.segments) - {random}
      ensures random in old(os.linked) || fault == OpenFails ==> os.segments == old(os.segments)
      ensures ret == -1 ==> os.linked == old(os.linked) && os.mappings == old(os.mappings)
      ensures ret == 0 ==>
        && id == random && size == n + MARKER_SIZE && doUnlink && ptr != 0 && ptr !in old(os.mappings)
        && os.page > 0 && os.mappings == old(os.mappings)[ptr := PageAlign(size, os.page)]
        && os.linked == old(os.linked) + {random} && Made(os.segments, random, pid, n)
    {
      id := random;
      if random in os.linked || fault == OpenFails {
        return -1;
      }
      os.segments := os.segments[random := Segment(pid, 0, map[])];
      os.linked := os.linked + {random};
      size := n + MARKER_SIZE;
      if fault == TruncateFails || fault == MapFails {
        os.linked := os.linked - {random};
        return -1;
      }
      os.segments := os.segments[random := Segment(pid, size, map[])];
      PagePositive(os);
      ptr := os.Mmap(PageAlign(size, os.page));
      Stamp(os, random, size - MARKER_SIZE, pid);
      doUnlink := true;
      return 0;
    }
  }

  /** The two stores at the end of the segment. */
  method Stamp(os: System, id: Id, offset: nat, pid: Pid)
    requires os.Valid() && id in os.segments && os.segments[id].size == offset + MARKER_SIZE && os.segments[id].words == map[] && pid > 0
    modifies os`segments
    ensures os.Valid() && old(os.segments).Keys == os.segments.Keys && os.segments - {id} == old(os.segments) - {id}
    ensures id in old(os.segments) && Both(os.segments[id], old(os.segments)[id].owner, offset, pid, map[])
  {
    var g := os.segments[id];
    os.segments := os.segments[id := g.(words := g.words[offset + 4 := pid])];
    g := os.segments[id];
    os.segments := os.segments[id := g.(words := g.words[offset := MARKER])];
  }

  /** Segment `id` is new: `n` zero bytes and behind them the two stores of its creator. */
  ghost predicate Made(segments: map<Id, Segment>, id: Id, pid: Pid, n: nat) {
    id in segments && Both(segments[id], pid, n, pid, map[])
  }

  // The states that a creator's two stores lead through, whatever `user` it wrote to its own bytes.

  predicate UserWords(user: map<nat, int>, n: nat) {
    forall offset :: offset in user ==> offset + 4 <= n
  }

  ghost predicate Neither(g: Segment, n: nat, user: map<nat, int>) {
    g.size == n + MARKER_SIZE && UserWords(user, n) && g.words == user
  }

  ghost predicate PidOnly(g: Segment, n: nat, pid: Pid, user: map<nat, int>) {
    g.size == n + MARKER_SIZE && UserWords(user, n) && g.words == user[n + 4 := pid]
  }

  ghost predicate Both(g: Segment, owner: Pid, n: nat, pid: Pid, user: map<nat, int>) {
    g.owner == owner && g.size == n + MARKER_SIZE && UserWords(user, n) && g.words == user[n + 4 := pid][n := MARKER]
  }

  lemma PagePositive(os: System)
    requires os.Valid()
    ensures os.page > 0
  {
  }

  lemma Fits(os: System, request: nat)
    requires os.Valid() && 0 < request <= MAX_SHM_SIZE
    ensures os.page > 0 && PageAlign(request, os.page) > 0 && SizeAccepted(SegmentSize(request, os.page))
  {
    var k: nat :| os.page == Pow2(k) && POINTER_SIZE <= Pow2(k) <= MAX_SHM_SIZE;
    LayoutFits(request, k);
  }

  /** A directory entry that the cleaner takes for segment `id`. */
  predicate Names(entry: string, id: Id) {
    |entry| >= |PREFIX| && entry[..|PREFIX|] == PREFIX && Readable(entry[|PREFIX|..]) && StrToUl(entry[|PREFIX|..]).value == id
  }

  /** Only entries with the prefix of the segment names count, and what follows has to be the number of the segment. */
  lemma NamesExactly(entry: string, id: Id)
    ensures Names(entry, id) <==>
      |entry| >= 9 && entry[..9] == "anek-shm-" && id >= 0 && Parse(entry[9..]) == Number(id)
  {
    hide StrToUl;
  }

  predicate Listed(entries: seq<string>, id: Id) {
    exists i :: 0 <= i < |entries| && Names(entries[i], id)
  }

  /** Every segment is found under the name it was created with. */
  lemma CreatedNamesAreListed(entries: seq<string>, id: Id)
    requires 0 <= id <= UINT32_MAX && SegmentName(id) in entries
    ensures Listed(entries, id)
  {
    ReadsPrinted(id);
    var i :| 0 <= i < |entries| && entries[i] == SegmentName(id);
    assert SegmentName(id)[|PREFIX|..] == Decimal(id) && SegmentName(id)[..|PREFIX|] == PREFIX;
    assert Names(entries[i], id);
  }

  /** What is left of `names` after the entries were gone through. */
  ghost function Remaining(names: set<Id>, entries: seq<string>, doomed: set<Id>): set<Id> {
    set id | id in names && !(id in doomed && Listed(entries, id))
  }

  /** A pass over a directory that lists every segment under its name removes all doomed segments and no others. */
  lemma FullPass(names: set<Id>, entries: seq<string>, doomed: set<Id>)
    requires forall id :: id in names ==> 0 <= id <= UINT32_MAX && SegmentName(id) in entries
    ensures Remaining(names, entries, doomed) == names - doomed
  {
    hide Listed;
    forall id | id in names ensures Listed(entries, id) {
      CreatedNamesAreListed(entries, id);
    }
  }

  /** Look at one directory entry and remove the segment it names if that is abandoned. */
  method CleanEntry(os: System, entry: string)
    requires os.Valid()
    modifies os`linked, os`mappings, os`nextAddress
    ensures os.Valid() && os.mappings == old(os.mappings)
    ensures os.linked == set id | id in old(os.linked) && !(id in os.Doomed() && Names(entry, id))
  {
    if |entry| < |PREFIX| || entry[..|PREFIX|] != PREFIX {
      return;
    }
    var ok, id, _ := AvAtou(entry[|PREFIX|..]);
    if ok < 0 {
      return;
    }
    assert forall i :: Names(entry, i) <==> i == id;
    CleanSegment(os, id);
  }

  /** Attach segment `id`, look for the marker and the owner, and remove the name when the owner is gone. */
  method CleanSegment(os: System, id: Id)
    requires os.Valid()
    modifies os`linked, os`mappings, os`nextAddress
    ensures os.Valid() && os.mappings == old(os.mappings)
    ensures os.linked == if id in os.readable && os.Abandoned(id) then old(os.linked) - {id} else old(os.linked)
  {
    hide PageAlign, Pow2, Align;
    var seg := new AvShm();
    var r := seg.AttachRo(os, id, NoFault);
    if r < 0 {
      return;
    }
    if seg.size < MARKER_SIZE {
      seg.Free(os);
      return;
    }
    var offset := seg.size - MARKER_SIZE;
    if Word(os.segments[id], offset) != MARKER {
      seg.Free(os);
      return;
    }
    var pid := Word(os.segments[id], offset + 4);
    if pid == 0 {
      seg.Free(os);
      return;
    }
    if pid in os.alive {
      seg.Free(os);
      return;
    }
    seg.Free(os);
    os.linked := os.linked - {id};
  }

  /** What has no marker, or no process id, keeps its name in every pass, whoever made it. */
  lemma UnmarkedStays(os: System, entries: seq<string>, id: Id)
    requires id in os.linked && id in os.segments
    requires var g := os.segments[id]; g.size < MARKER_SIZE || Word(g, g.size - MARKER_SIZE) != MARKER || Word(g, g.size - MARKER_SIZE + 4) == 0
    ensures id in Remaining(os.linked, entries, os.Doomed())
  {
    hide Listed, SizeAccepted;
  }

  /** A segment whose creator died before its second store keeps its name in every pass. */
  lemma HalfMadeStays(os: System, entries: seq<string>, id: Id, n: nat, pid: Pid, user: map<nat, int>)
    requires id in os.linked && id in os.segments && (Neither(os.segments[id], n, user) || PidOnly(os.segments[id], n, pid, user))
    ensures id in Remaining(os.linked, entries, os.Doomed())
  {
    hide Listed;
    assert n !in user;
  }

  /** A segment with both stores, whatever was written to it later, loses its name in a pass exactly when some entry names it,
      it may be opened, its size is acceptable, and the process that stored its id is gone. */
  lemma MadeGoesExactly(os: System, entries: seq<string>, id: Id, owner: Pid, n: nat, pid: Pid, user: map<nat, int>)
    requires id in os.linked && id in os.segments && Both(os.segments[id], owner, n, pid, user) && pid > 0
    ensures id !in Remaining(os.linked, entries, os.Doomed()) <==>
      Listed(entries, id) && id in os.readable && SizeAccepted(n + MARKER_SIZE) && pid !in os.alive
  {
    hide Listed, SizeAccepted;
  }

  /** A complete pass over the directory. */
  method Cleanup(os: System, entries: seq<string>)
    requires os.Valid()
    modifies os`linked, os`mappings, os`nextAddress
    ensures os.Valid() && os.mappings == old(os.mappings)
    ensures os.linked == Remaining(old(os.linked), entries, old(os.Doomed()))
  {
    for k := 0 to |entries|
      invariant os.Valid() && os.mappings == old(os.mappings)
      invariant os.linked == Remaining(old(os.linked), entries[..k], old(os.Doomed()))
    {
      CleanEntry(os, entries[k]);
      hide Names, Listed;
      forall id ensures Listed(entries[..k + 1], id) <==> Listed(entries[..k], id) || Names(entries[k], id) {
        ListedStep(entries, k, id);
      }
    }
    assert entries[..|entries|] == entries;
  }

  lemma ListedStep(entries: seq<string>, k: nat, id: Id)
    requires k < |entries|
    ensures Listed(entries[..k + 1], id) <==> Listed(entries[..k], id) || Names(entries[k], id)
  {
    var a, b := entries[..k], entries[..k + 1];
    assert b[k] == entries[k];
    forall i | 0 <= i < k ensures a[i] == b[i] {
    }
  }
}
