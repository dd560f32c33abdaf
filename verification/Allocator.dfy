/**
  Allocation of remote memory in two levels: chunks handed out by the directories, pages carved out
  of them by each thread (include/GlobalAllocator.h, include/LocalAllocator.h, include/DSM.h:198-224,
  src/Directory.cpp:15-21, 64-70).
*/
module Allocators {
  import opened Layout

  const CHUNK_SIZE: nat := 32 * 1024 * 1024
  const ROOT_POINTER_OFFSET: nat := CHUNK_SIZE / 2

  // ---------------------------------------------------------------- chunks

  /** Chunk `index` of directory `dir` on machine `node`; each directory manages `region` bytes. */
  datatype Chunk = Chunk(node: nat, dir: nat, index: nat)

  function ChunkStart(region: nat, c: Chunk): nat {
    region * c.dir + CHUNK_SIZE * c.index
  }

  /** The chunk lies inside its directory's region and is not the region's first one. */
  predicate Grantable(region: nat, c: Chunk) {
    1 <= c.index && CHUNK_SIZE * (c.index + 1) <= region
  }

  lemma {:induction false} TimesLess(a: nat, b: nat, c: nat)
    requires a < b
    ensures c * a + c <= c * b
    decreases b
  {
    assert c * b == c * (b - 1) + c;
    if a < b - 1 {
      TimesLess(a, b - 1, c);
    }
  }

  lemma ChunksApart(region: nat, a: Chunk, b: Chunk)
    requires Grantable(region, a) && Grantable(region, b) && a != b && a.node == b.node
    ensures ChunkStart(region, a) + CHUNK_SIZE <= ChunkStart(region, b) || ChunkStart(region, b) + CHUNK_SIZE <= ChunkStart(region, a)
  {
    if a.dir < b.dir {
      TimesLess(a.dir, b.dir, region);
    } else if b.dir < a.dir {
      TimesLess(b.dir, a.dir, region);
    } else if a.index < b.index {
      TimesLess(a.index, b.index, CHUNK_SIZE);
    } else {
      TimesLess(b.index, a.index, CHUNK_SIZE);
    }
  }

  // ---------------------------------------------------------------- all threads and directories

  /** A thread's allocator: its chunk and the offset of the next free byte in it. */
  datatype Local = NoChunk | Carving(chunk: Chunk, used: nat)

  /** A range some call of alloc returned. */
  datatype Range = Range(thread: nat, chunk: Chunk, from: nat, size: nat)

  /**
    `tails` is the next chunk index of each directory, `owners` the thread every granted chunk went
    to, `given` all ranges returned so far.
  */
  datatype State = State(region: nat, tails: map<(nat, nat), nat>, locals: map<nat, Local>, owners: map<Chunk, nat>, given: seq<Range>)

  function Tail(s: State, node: nat, dir: nat): nat {
    if (node, dir) in s.tails then s.tails[(node, dir)] else 1
  }

  function LocalOf(s: State, t: nat): Local {
    if t in s.locals then s.locals[t] else NoChunk
  }

  /** A directory answers a thread's request, or a thread carves a range out of its chunk. */
  datatype Event = Grant(t: nat, node: nat, dir: nat) | Carve(t: nat, size: nat)

  predicate Enabled(s: State, e: Event) {
    match e
    case Grant(_, node, dir) => CHUNK_SIZE * (Tail(s, node, dir) + 1) <= s.region
    case Carve(t, size) => LocalOf(s, t).Carving? && LocalOf(s, t).used + size <= CHUNK_SIZE
  }

  function Next(s: State, e: Event): State
    requires Enabled(s, e)
  {
    match e
    case Grant(t, node, dir) =>
      var c := Chunk(node, dir, Tail(s, node, dir));
      s.(tails := s.tails[(node, dir) := c.index + 1], locals := s.locals[t := Carving(c, 0)], owners := s.owners[c := t])
    case Carve(t, size) =>
      var l := LocalOf(s, t);
      s.(locals := s.locals[t := l.(used := l.used + size)], given := s.given + [Range(t, l.chunk, l.used, size)])
  }

  ghost predicate ChunksOk(s: State) {
    && (forall c :: c in s.owners ==> Grantable(s.region, c) && c.index < Tail(s, c.node, c.dir))
    && (forall d :: d in s.tails ==> 1 <= s.tails[d])
    && (forall t :: LocalOf(s, t).Carving? ==>
        LocalOf(s, t).chunk in s.owners && s.owners[LocalOf(s, t).chunk] == t && LocalOf(s, t).used <= CHUNK_SIZE)
  }

  /** Every returned range lies in a chunk of its thread, below what the thread has used of it. */
  ghost predicate RangesOk(s: State) {
    forall i :: 0 <= i < |s.given| ==>
      var r := s.given[i];
      && r.chunk in s.owners && s.owners[r.chunk] == r.thread && r.from + r.size <= CHUNK_SIZE
      && (LocalOf(s, r.thread).Carving? && LocalOf(s, r.thread).chunk == r.chunk ==> r.from + r.size <= LocalOf(s, r.thread).used)
  }

  ghost predicate Apart(s: State) {
    forall i, j :: 0 <= i < j < |s.given| && s.given[i].chunk == s.given[j].chunk ==>
                     s.given[i].from + s.given[i].size <= s.given[j].from
  }

  ghost predicate Inv(s: State) {
    ChunksOk(s) && RangesOk(s) && Apart(s)
  }

  lemma GrantInv(s: State, t: nat, node: nat, dir: nat)
    requires Inv(s) && Enabled(s, Grant(t, node, dir))
    ensures Inv(Next(s, Grant(t, node, dir)))
  {
    var u, c := Next(s, Grant(t, node, dir)), Chunk(node, dir, Tail(s, node, dir));
    assert c !in s.owners;
    forall x | x in u.owners ensures Grantable(u.region, x) && x.index < Tail(u, x.node, x.dir) {
      assert x != c ==> x in s.owners;
    }
    forall x | LocalOf(u, x).Carving?
      ensures LocalOf(u, x).chunk in u.owners && u.owners[LocalOf(u, x).chunk] == x && LocalOf(u, x).used <= CHUNK_SIZE
    {
      assert x != t ==> LocalOf(u, x) == LocalOf(s, x);
    }
    assert RangesOk(u) by {
      forall i | 0 <= i < |u.given| ensures u.given[i].chunk in s.owners && u.given[i].chunk != c {
      }
    }
  }

  lemma CarveInv(s: State, t: nat, size: nat)
    requires Inv(s) && Enabled(s, Carve(t, size))
    ensures Inv(Next(s, Carve(t, size)))
  {
    var u, l := Next(s, Carve(t, size)), LocalOf(s, t);
    assert s.owners[l.chunk] == t;
    forall i | 0 <= i < |s.given| && s.given[i].chunk == l.chunk ensures s.given[i].from + s.given[i].size <= l.used {
    }
    forall x | LocalOf(u, x).Carving?
      ensures LocalOf(u, x).chunk in u.owners && u.owners[LocalOf(u, x).chunk] == x && LocalOf(u, x).used <= CHUNK_SIZE
    {
      assert x != t ==> LocalOf(u, x) == LocalOf(s, x);
    }
  }

  lemma StepInv(s: State, e: Event)
    requires Inv(s) && Enabled(s, e)
    ensures Inv(Next(s, e)) && Next(s, e).region == s.region
  {
    match e
    case Grant(t, node, dir) => GrantInv(s, t, node, dir);
    case Carve(t, size) => CarveInv(s, t, size);
  }

  ghost predicate Moves(s: State, e: Event, t: State) {
    Enabled(s, e) && t == Next(s, e)
  }

  ghost predicate Run(region: nat, ss: seq<State>, es: seq<Event>) {
    && |ss| == |es| + 1 && ss[0] == State(region, map[], map[], map[], [])
    && forall i :: 0 <= i < |es| ==> Moves(ss[i], es[i], ss[i + 1])
  }

  lemma {:induction false} RunInv(region: nat, ss: seq<State>, es: seq<Event>, i: nat)
    requires Run(region, ss, es) && i < |ss|
    ensures Inv(ss[i]) && ss[i].region == region
  {
    if 0 < i {
      RunInv(region, ss, es, i - 1);
      assert Moves(ss[i - 1], es[i - 1], ss[i]);
      StepInv(ss[i - 1], es[i - 1]);
    }
  }

  /** Absolute start of a range on its machine. */
  function Start(region: nat, r: Range): nat {
    ChunkStart(region, r.chunk) + r.from
  }

  function AddressOf(region: nat, r: Range): GlobalAddress {
    GlobalAddress(r.chunk.node, Start(region, r))
  }

  /**
    In every run, ranges returned to any two calls, by any threads, never overlap; none is at the
    null address, and none reaches into the first chunk of a region, where the root pointers live.
  */
  lemma RangesDisjoint(region: nat, ss: seq<State>, es: seq<Event>, n: nat, i: nat, j: nat)
    requires Run(region, ss, es) && n < |ss| && i < j < |ss[n].given|
    requires ss[n].given[i].chunk.node == ss[n].given[j].chunk.node
    ensures var r, q := ss[n].given[i], ss[n].given[j];
            Start(region, r) + r.size <= Start(region, q) || Start(region, q) + q.size <= Start(region, r)
  {
    RunInv(region, ss, es, n);
    var r, q := ss[n].given[i], ss[n].given[j];
    if r.chunk != q.chunk {
      ChunksApart(region, r.chunk, q.chunk);
    }
  }

  lemma RangesSafe(region: nat, ss: seq<State>, es: seq<Event>, n: nat, i: nat)
    requires Run(region, ss, es) && n < |ss| && i < |ss[n].given|
    ensures var r := ss[n].given[i];
            && AddressOf(region, r) != NULL
            && region * r.chunk.dir + CHUNK_SIZE <= Start(region, r)
            && Start(region, r) + r.size <= region * r.chunk.dir + region
            && (r.chunk.dir == 0 ==> ROOT_POINTER_OFFSET < Start(region, r))
  {
    RunInv(region, ss, es, n);
    var r := ss[n].given[i];
    TimesLess(0, r.chunk.index, CHUNK_SIZE);
  }

  /** No chunk is granted twice, whether its holder frees it or not. */
  lemma GrantedOnce(region: nat, ss: seq<State>, es: seq<Event>, i: nat, j: nat)
    requires Run(region, ss, es) && i < j < |es| && es[i].Grant? && es[j].Grant?
    ensures GrantedChunk(ss[i], es[i]) != GrantedChunk(ss[j], es[j])
    ensures GrantedChunk(ss[i], es[i]) in ss[j].owners && GrantedChunk(ss[j], es[j]) !in ss[j].owners
  {
    assert Moves(ss[i], es[i], ss[i + 1]);
    OwnedForEver(region, ss, es, i + 1, j, GrantedChunk(ss[i], es[i]));
    RunInv(region, ss, es, j);
  }

  function GrantedChunk(s: State, e: Event): Chunk
    requires e.Grant?
  {
    Chunk(e.node, e.dir, Tail(s, e.node, e.dir))
  }

  lemma {:induction false} OwnedForEver(region: nat, ss: seq<State>, es: seq<Event>, i: nat, j: nat, c: Chunk)
    requires Run(region, ss, es) && i <= j < |ss| && c in ss[i].owners
    ensures c in ss[j].owners
    decreases j
  {
    if i < j {
      OwnedForEver(region, ss, es, i, j - 1, c);
      assert Moves(ss[j - 1], es[j - 1], ss[j - 1 + 1]);
    }
  }

  // ---------------------------------------------------------------- nothing is wasted

  /** How many chunks a directory has granted. */
  function Grants(es: seq<Event>, node: nat, dir: nat): nat {
    if es == [] then 0
    else
      var e := es[|es| - 1];
      Grants(es[..|es| - 1], node, dir) + (if e.Grant? && e.node == node && e.dir == dir then 1 else 0)
  }

  lemma {:induction false} TailCounts(region: nat, ss: seq<State>, es: seq<Event>, i: nat, node: nat, dir: nat)
    requires Run(region, ss, es) && i < |ss|
    ensures Tail(ss[i], node, dir) == 1 + Grants(es[..i], node, dir)
  {
    if 0 < i {
      TailCounts(region, ss, es, i - 1, node, dir);
      assert Moves(ss[i - 1], es[i - 1], ss[i]);
      assert es[..i][..i - 1] == es[..i - 1];
    }
  }

  /** A directory refuses a chunk exactly when it has granted all chunks of its region but the first. */
  lemma GrantIff(region: nat, ss: seq<State>, es: seq<Event>, i: nat, t: nat, node: nat, dir: nat)
    requires Run(region, ss, es) && i < |ss|
    ensures Enabled(ss[i], Grant(t, node, dir)) <==> Grants(es[..i], node, dir) + 1 < region / CHUNK_SIZE
    ensures GrantedChunk(ss[i], Grant(t, node, dir)).index == Grants(es[..i], node, dir) + 1
  {
    RunInv(region, ss, es, i);
    TailCounts(region, ss, es, i, node, dir);
    ChunkFits(region, Tail(ss[i], node, dir));
  }

  /** The bytes given out of a chunk. */
  function GivenOf(given: seq<Range>, c: Chunk): nat {
    if given == [] then 0
    else GivenOf(given[..|given| - 1], c) + (if given[|given| - 1].chunk == c then given[|given| - 1].size else 0)
  }

  lemma {:induction false} NoneGiven(given: seq<Range>, c: Chunk)
    requires forall i :: 0 <= i < |given| ==> given[i].chunk != c
    ensures GivenOf(given, c) == 0
  {
    if given != [] {
      NoneGiven(given[..|given| - 1], c);
    }
  }

  /** What a thread has used of its chunk is what it has given out of it. */
  lemma {:induction false} UsedIsGiven(region: nat, ss: seq<State>, es: seq<Event>, i: nat, t: nat)
    requires Run(region, ss, es) && i < |ss| && LocalOf(ss[i], t).Carving?
    ensures LocalOf(ss[i], t).used == GivenOf(ss[i].given, LocalOf(ss[i], t).chunk)
  {
    hide Inv;
    assert 0 < i;
    RunInv(region, ss, es, i - 1);
    assert Moves(ss[i - 1], es[i - 1], ss[i]);
    if LocalOf(ss[i - 1], t).Carving? {
      UsedIsGiven(region, ss, es, i - 1, t);
    }
    UsedStep(ss[i - 1], es[i - 1], t);
  }

  lemma UsedStep(s: State, e: Event, t: nat)
    requires Inv(s) && Enabled(s, e) && LocalOf(Next(s, e), t).Carving?
    requires LocalOf(s, t).Carving? ==> LocalOf(s, t).used == GivenOf(s.given, LocalOf(s, t).chunk)
    ensures LocalOf(Next(s, e), t).used == GivenOf(Next(s, e).given, LocalOf(Next(s, e), t).chunk)
  {
    if e.Grant? {
      if e.t == t {
        NoneGiven(s.given, GrantedChunk(s, e));
      }
    } else {
      var u := Next(s, e);
      assert u.given[..|s.given|] == s.given;
      assert e.t != t && LocalOf(s, t).Carving? ==> s.owners[LocalOf(s, t).chunk] != s.owners[LocalOf(s, e.t).chunk];
    }
  }

  /** A thread carves without asking for a chunk exactly when the range fits into what is left of its chunk. */
  lemma CarveIff(region: nat, ss: seq<State>, es: seq<Event>, i: nat, t: nat, size: nat)
    requires Run(region, ss, es) && i < |ss| && LocalOf(ss[i], t).Carving?
    ensures Enabled(ss[i], Carve(t, size)) <==> GivenOf(ss[i].given, LocalOf(ss[i], t).chunk) + size <= CHUNK_SIZE
  {
    UsedIsGiven(region, ss, es, i, t);
  }

  // ---------------------------------------------------------------- the directory's allocator

  class GlobalAllocator {
    const start: GlobalAddress
    const size: nat
    const bitmap: array<bool>
    var bitmapTail: nat

    /** Chunks from the tail on have never been handed out. */
    ghost predicate Valid()
      reads this, bitmap
    {
      && bitmap.Length == size / CHUNK_SIZE && 1 <= bitmapTail <= bitmap.Length
      && forall i :: bitmapTail <= i < bitmap.Length ==> !bitmap[i]
    }

    /** The object is the allocator of directory `dir` on machine `node` in state `s`. */
    ghost predicate Serves(s: State, node: nat, dir: nat)
      reads this, bitmap
    {
      Valid() && start == GlobalAddress(node, s.region * dir) && size == s.region && bitmapTail == Tail(s, node, dir)
    }

    /** The Directory constructor: the memory of a machine is divided among its directories. */
    constructor (node: nat, dir: nat, region: nat)
      requires CHUNK_SIZE <= region
      ensures Serves(State(region, map[], map[], map[], []), node, dir) && fresh(bitmap)
    {
      start, size := GlobalAddress(node, region * dir), region;
      bitmap := new bool[region / CHUNK_SIZE](i => false);
      bitmapTail := 1;
      new;
      assert size / CHUNK_SIZE >= 1;
      bitmap[0] := true;
    }

    /**
      alloc_chunck is the step Grant: it grants the chunk at the tail, and fails exactly when that step
      is not possible, the region being used up. The branch for a tail that is taken cannot be reached.
    */
    method AllocChunk(ghost s: State, ghost t: nat, ghost node: nat, ghost dir: nat) returns (ok: bool, addr: GlobalAddress)
      requires Serves(s, node, dir)
      modifies this, bitmap
      ensures ok == Enabled(s, Grant(t, node, dir))
      ensures ok ==> Serves(Next(s, Grant(t, node, dir)), node, dir)
      ensures ok ==> addr == GlobalAddress(node, ChunkStart(s.region, GrantedChunk(s, Grant(t, node, dir))))
      ensures !ok ==> Serves(s, node, dir)
    {
      addr := start;
      ChunkFits(size, bitmapTail);
      if bitmapTail >= bitmap.Length {
        return false, addr;
      }
      assert !bitmap[bitmapTail];
      bitmap[bitmapTail] := true;
      addr := addr.(offset := addr.offset + bitmapTail * CHUNK_SIZE);
      bitmapTail := bitmapTail + 1;
      ok := true;
    }

    /** free_chunk: the bit is cleared, and no grant to come is affected, since the tail never goes back. */
    method FreeChunk(addr: GlobalAddress, ghost s: State, ghost node: nat, ghost dir: nat)
      requires Serves(s, node, dir) && start.offset <= addr.offset && (addr.offset - start.offset) / CHUNK_SIZE < bitmap.Length
      modifies bitmap
      ensures Serves(s, node, dir) && !bitmap[(addr.offset - start.offset) / CHUNK_SIZE]
    {
      bitmap[(addr.offset - start.offset) / CHUNK_SIZE] := false;
    }
  }

  lemma ChunkFits(size: nat, i: nat)
    ensures i < size / CHUNK_SIZE <==> CHUNK_SIZE * (i + 1) <= size
  {
  }

  lemma CarveFacts(s: State, t: nat, size: nat, node: nat, dir: nat)
    ensures CHUNK_SIZE < size ==> !Enabled(s, Carve(t, size))
    ensures Enabled(s, Carve(t, size)) ==>
              var u := Next(s, Carve(t, size));
              && u.region == s.region && Tail(u, node, dir) == Tail(s, node, dir)
              && |u.given| == |s.given| + 1 && u.given[|s.given|].size == size
  {
  }

  lemma GrantFacts(s: State, t: nat, node: nat, dir: nat, size: nat)
    requires Enabled(s, Grant(t, node, dir))
    ensures var u := Next(s, Grant(t, node, dir));
            && u.region == s.region && u.given == s.given
            && (Enabled(u, Carve(t, size)) <==> size <= CHUNK_SIZE)
            && (size <= CHUNK_SIZE ==>
                var v := Next(u, Carve(t, size));
                && v.region == s.region && Tail(v, node, dir) == Tail(u, node, dir)
                && |v.given| == |s.given| + 1 && v.given[|s.given|].size == size)
  {
  }

  // ---------------------------------------------------------------- a thread's allocator

  class DsmThread {
    const id: nat
    const machines: nat
    const directories: nat
    var head: GlobalAddress
    var cur: GlobalAddress
    var logHeads: seq<GlobalAddress>
    var nextTargetNode: nat
    var nextTargetDir: nat

    predicate Valid()
      reads this
    {
      0 < machines && 0 < directories && nextTargetNode < machines && nextTargetDir < directories
    }

    /** The object is the allocator of thread `id` in state `s`. */
    ghost predicate Follows(s: State)
      reads this
    {
      && Valid()
      && match LocalOf(s, id)
         case NoChunk => logHeads == []
         case Carving(c, used) =>
           && logHeads != [] && head == GlobalAddress(c.node, ChunkStart(s.region, c))
           && cur == head.(offset := head.offset + used)
    }

    constructor (id: nat, machines: nat, directories: nat, nodeId: nat, ghost region: nat)
      requires 0 < machines && 0 < directories
      ensures Follows(State(region, map[], map[], map[], []))
      ensures this.id == id && this.machines == machines && this.directories == directories
    {
      this.id, this.machines, this.directories := id, machines, directories;
      head, cur, logHeads := NULL, NULL, [];
      nextTargetNode := (id + nodeId) % machines;
      nextTargetDir := (id + nodeId) % directories;
    }

    /** malloc is the step Carve: it asks for a chunk, changing nothing, exactly when that step is not possible. */
    method Malloc(size: nat, ghost s: State) returns (res: GlobalAddress, needChunk: bool)
      requires Follows(s)
      modifies this`cur
      ensures needChunk == !Enabled(s, Carve(id, size)) && res == old(cur)
      ensures needChunk ==> Follows(s) && cur == old(cur)
      ensures !needChunk ==>
                var t := Next(s, Carve(id, size));
                Follows(t) && res == AddressOf(s.region, t.given[|s.given|])
    {
      res := cur;
      if logHeads == [] || cur.offset + size > head.offset + CHUNK_SIZE {
        needChunk := true;
      } else {
        needChunk := false;
        cur := cur.(offset := cur.offset + size);
      }
    }

    /** set_chunck: the thread carves from the chunk it was granted. */
    method SetChunk(addr: GlobalAddress, ghost s: State, ghost node: nat, ghost dir: nat)
      requires Follows(s) && Enabled(s, Grant(id, node, dir))
      requires addr == GlobalAddress(node, ChunkStart(s.region, GrantedChunk(s, Grant(id, node, dir))))
      modifies this`head, this`cur, this`logHeads
      ensures Follows(Next(s, Grant(id, node, dir))) && cur == addr
    {
      logHeads := logHeads + [addr];
      head, cur := addr, addr;
    }

    /** The request to the next directory, and the turn of the one after it. */
    method Refill(dir: GlobalAllocator, ghost s: State) returns (ok: bool)
      requires Follows(s) && dir.Serves(s, nextTargetNode, nextTargetDir)
      modifies this, dir, dir.bitmap
      ensures ok == Enabled(s, Grant(id, old(nextTargetNode), old(nextTargetDir)))
      ensures ok ==>
                var u := Next(s, Grant(id, old(nextTargetNode), old(nextTargetDir)));
                Follows(u) && dir.Serves(u, old(nextTargetNode), old(nextTargetDir))
      ensures ok ==>
                && nextTargetDir == (old(nextTargetDir) + 1) % directories
                && nextTargetNode == if old(nextTargetDir) + 1 == directories then (old(nextTargetNode) + 1) % machines
                                     else old(nextTargetNode)
    {
      hide Next, Enabled, Follows, Tail, ChunkStart, GrantedChunk;
      var chunk;
      ok, chunk := dir.AllocChunk(s, id, nextTargetNode, nextTargetDir);
      if !ok {
        return;
      }
      SetChunk(chunk, s, nextTargetNode, nextTargetDir);
      NextTarget(Next(s, Grant(id, nextTargetNode, nextTargetDir)));
    }

    /** The next request goes to the next directory, after the last one of a machine to the next machine. */
    method NextTarget(ghost s: State)
      requires Follows(s)
      modifies this`nextTargetNode, this`nextTargetDir
      ensures Follows(s)
      ensures nextTargetDir == (old(nextTargetDir) + 1) % directories
      ensures nextTargetNode == if old(nextTargetDir) + 1 == directories then (old(nextTargetNode) + 1) % machines
                                else old(nextTargetNode)
    {
      nextTargetDir := nextTargetDir + 1;
      if nextTargetDir == directories {
        nextTargetNode := (nextTargetNode + 1) % machines;
        nextTargetDir := 0;
      }
    }

    /** What alloc comes to: carve, or have a chunk granted and carve from it, if the range fits into a chunk. */
    ghost function Allocated(s: State, size: nat): State
      reads this
      requires Enabled(s, Carve(id, size)) || Enabled(s, Grant(id, nextTargetNode, nextTargetDir))
    {
      if Enabled(s, Carve(id, size)) then Next(s, Carve(id, size))
      else
        var u := Next(s, Grant(id, nextTargetNode, nextTargetDir));
        if size <= CHUNK_SIZE then Next(u, Carve(id, size)) else u
    }

    /**
      alloc makes steps of all threads' and directories' allocation: it carves, after asking the next
      directory for a chunk if it has to. It fails exactly when that directory's region is used up. The
      address is that of a range given to nobody else, except for sizes above a chunk: then it is the
      start of the new chunk, and nothing has been reserved. Requests go round over all directories.
    */
    method Alloc(size: nat, dir: GlobalAllocator, ghost s: State) returns (ok: bool, addr: GlobalAddress)
      requires Follows(s) && dir.Serves(s, nextTargetNode, nextTargetDir)
      modifies this, dir, dir.bitmap
      ensures ok == (Enabled(s, Carve(id, size)) || Enabled(s, Grant(id, old(nextTargetNode), old(nextTargetDir))))
      ensures ok ==> Follows(old(Allocated(s, size))) && dir.Serves(old(Allocated(s, size)), old(nextTargetNode), old(nextTargetDir))
      ensures ok && size <= CHUNK_SIZE ==>
                var t := old(Allocated(s, size));
                |t.given| == |s.given| + 1 && addr == AddressOf(s.region, t.given[|s.given|]) && t.given[|s.given|].size == size
      ensures ok && CHUNK_SIZE < size ==> old(Allocated(s, size)).given == s.given && cur == addr
      ensures ok && !Enabled(s, Carve(id, size)) ==>
                && nextTargetDir == (old(nextTargetDir) + 1) % directories
                && nextTargetNode == if old(nextTargetDir) + 1 == directories then (old(nextTargetNode) + 1) % machines
                                     else old(nextTargetNode)
      ensures ok && Enabled(s, Carve(id, size)) ==> nextTargetDir == old(nextTargetDir) && nextTargetNode == old(nextTargetNode)
    {
      hide Next, Enabled, Follows, Tail, AddressOf;
      CarveFacts(s, id, size, nextTargetNode, nextTargetDir);
      var needChunk;
      addr, needChunk := Malloc(size, s);
      if !needChunk {
        return true, addr;
      }
      ghost var e := Grant(id, nextTargetNode, nextTargetDir);
      ok := Refill(dir, s);
      if !ok {
        return;
      }
      GrantFacts(s, id, e.node, e.dir, size);
      addr, needChunk := Malloc(size, Next(s, e));
    }
  }
}
