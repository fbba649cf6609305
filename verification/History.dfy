/**
 The history of writes kept for verification (log_io_piece, unlog_io_piece and
 prune_io_piece_log in iolog.c), in its sorted form: a search tree keyed by file
 and offset with at most one entry per key.  Balancing is left to the tree.
 */
module History {
  import opened Basics

  datatype Key = Key(file: nat, offset: nat)

  /** struct io_piece: `id` is its address, so distinct for entries that exist at
      the same time; inFlight is the flag IP_F_IN_FLIGHT. */
  datatype Piece = Piece(id: nat, key: Key, len: nat, numberio: nat, inFlight: bool)

  datatype Tree = Leaf | Node(left: Tree, piece: Piece, right: Tree)

  predicate Less(a: Key, b: Key) {
    a.file < b.file || (a.file == b.file && a.offset < b.offset)
  }

  /** What the tree holds. */
  ghost function Pieces(t: Tree): set<Piece> {
    match t
    case Leaf => {}
    case Node(l, p, r) => Pieces(l) + {p} + Pieces(r)
  }

  ghost predicate Ordered(t: Tree) {
    match t
    case Leaf => true
    case Node(l, p, r) =>
      && Ordered(l) && Ordered(r)
      && (forall q <- Pieces(l) :: Less(q.key, p.key))
      && (forall q <- Pieces(r) :: Less(p.key, q.key))
  }

  ghost predicate HasKey(s: set<Piece>, k: Key) {
    exists q :: q in s && q.key == k
  }

  ghost function Without(s: set<Piece>, k: Key): set<Piece> {
    set q | q in s && q.key != k
  }

  ghost function Size(t: Tree): nat {
    match t
    case Leaf => 0
    case Node(l, _, r) => Size(l) + 1 + Size(r)
  }

  /** The entries from left to right. */
  ghost function InOrder(t: Tree): seq<Piece> {
    match t
    case Leaf => []
    case Node(l, p, r) => InOrder(l) + [p] + InOrder(r)
  }

  /** rb_link_node at the place the search ended. */
  function Insert(t: Tree, p: Piece): Tree {
    match t
    case Leaf => Node(Leaf, p, Leaf)
    case Node(l, q, r) =>
      if Less(p.key, q.key) then Node(Insert(l, p), q, r) else Node(l, q, Insert(r, p))
  }

  function First(t: Tree): Piece
    requires t.Node?
  {
    if t.left.Leaf? then t.piece else First(t.left)
  }

  function DropFirst(t: Tree): Tree
    requires t.Node?
  {
    if t.left.Leaf? then t.right else Node(DropFirst(t.left), t.piece, t.right)
  }

  /** rb_erase */
  function Erase(t: Tree, k: Key): Tree {
    match t
    case Leaf => Leaf
    case Node(l, p, r) =>
      if Less(k, p.key) then Node(Erase(l, k), p, r)
      else if Less(p.key, k) then Node(l, p, Erase(r, k))
      else if r.Leaf? then l
      else Node(l, First(r), DropFirst(r))
  }

  function Update(t: Tree, p: Piece): Tree {
    match t
    case Leaf => Leaf
    case Node(l, q, r) =>
      if Less(p.key, q.key) then Node(Update(l, p), q, r)
      else if Less(q.key, p.key) then Node(l, q, Update(r, p))
      else Node(l, p, r)
  }

  // ----- The tree operations are set operations -----

  lemma {:induction false} InsertIs(t: Tree, p: Piece)
    requires Ordered(t) && !HasKey(Pieces(t), p.key)
    ensures Ordered(Insert(t, p)) && Pieces(Insert(t, p)) == Pieces(t) + {p}
  {
    match t
    case Leaf =>
    case Node(l, q, r) =>
      assert q in Pieces(t);
      if Less(p.key, q.key) {
        InsertIs(l, p);
      } else {
        InsertIs(r, p);
      }
  }

  lemma {:induction false} FirstIs(t: Tree)
    requires Ordered(t) && t.Node?
    ensures First(t) in Pieces(t) && (forall q <- Pieces(t) :: q == First(t) || Less(First(t).key, q.key))
    ensures Ordered(DropFirst(t)) && Pieces(DropFirst(t)) == Pieces(t) - {First(t)}
  {
    if t.left.Node? {
      FirstIs(t.left);
    }
  }

  lemma {:induction false} EraseIs(t: Tree, k: Key)
    requires Ordered(t)
    ensures Ordered(Erase(t, k)) && Pieces(Erase(t, k)) == Without(Pieces(t), k)
  {
    match t
    case Leaf =>
    case Node(l, p, r) =>
      if Less(k, p.key) {
        EraseIs(l, k);
      } else if Less(p.key, k) {
        EraseIs(r, k);
      } else if r.Node? {
        FirstIs(r);
      }
  }

  lemma {:induction false} UpdateIs(t: Tree, p: Piece, w: Piece)
    requires Ordered(t) && w in Pieces(t) && w.key == p.key
    ensures Ordered(Update(t, p)) && Pieces(Update(t, p)) == Without(Pieces(t), p.key) + {p}
  {
    match t
    case Node(l, q, r) =>
      WithoutSplit(t, p.key);
      if Less(p.key, q.key) {
        UpdateIs(l, p, w);
      } else if Less(q.key, p.key) {
        UpdateIs(r, p, w);
      }
  }

  /** Only one side can hold the key. */
  lemma WithoutSplit(t: Tree, k: Key)
    requires Ordered(t) && t.Node?
    ensures Without(Pieces(t), k) ==
              if Less(k, t.piece.key) then Without(Pieces(t.left), k) + {t.piece} + Pieces(t.right)
              else if Less(t.piece.key, k) then Pieces(t.left) + {t.piece} + Without(Pieces(t.right), k)
              else Pieces(t.left) + Pieces(t.right)
  {
  }

  lemma {:induction false} SizeIs(t: Tree)
    requires Ordered(t)
    ensures Size(t) == |Pieces(t)|
  {
    match t
    case Leaf =>
    case Node(l, p, r) =>
      SizeIs(l);
      SizeIs(r);
      assert Pieces(l) !! {p} !! Pieces(r);
  }

  /** One entry per key. */
  lemma {:induction false} KeysUnique(t: Tree, p: Piece, q: Piece)
    requires Ordered(t) && p in Pieces(t) && q in Pieces(t) && p.key == q.key
    ensures p == q
  {
    match t
    case Node(l, x, r) =>
      if p in Pieces(l) && q in Pieces(l) {
        KeysUnique(l, p, q);
      } else if p in Pieces(r) && q in Pieces(r) {
        KeysUnique(r, p, q);
      }
  }

  /** Strictly sorted by file and offset: at most one entry per key. */
  ghost predicate StrictlySorted(s: seq<Piece>) {
    forall i, j :: 0 <= i < j < |s| ==> Less(s[i].key, s[j].key)
  }

  lemma {:induction false} InOrderMembers(t: Tree)
    ensures |InOrder(t)| == Size(t) && forall p :: p in InOrder(t) <==> p in Pieces(t)
  {
    match t
    case Leaf =>
    case Node(l, q, r) =>
      InOrderMembers(l);
      InOrderMembers(r);
  }

  lemma SortedAround(a: seq<Piece>, q: Piece, b: seq<Piece>)
    requires StrictlySorted(a) && StrictlySorted(b)
    requires (forall p <- a :: Less(p.key, q.key)) && (forall p <- b :: Less(q.key, p.key))
    ensures StrictlySorted(a + [q] + b)
  {
    assert forall i :: 0 <= i < |a| ==> a[i] in a;
    assert forall i :: 0 <= i < |b| ==> b[i] in b;
  }

  lemma {:induction false} InOrderSorted(t: Tree)
    requires Ordered(t)
    ensures StrictlySorted(InOrder(t))
  {
    match t
    case Leaf =>
    case Node(l, q, r) =>
      InOrderSorted(l);
      InOrderSorted(r);
      InOrderMembers(l);
      InOrderMembers(r);
      SortedAround(InOrder(l), q, InOrder(r));
  }

  // ----- The history of a job -----

  function Find(t: Tree, k: Key): Option<Piece> {
    match t
    case Leaf => None
    case Node(l, q, r) => if Less(k, q.key) then Find(l, k) else if Less(q.key, k) then Find(r, k) else Some(q)
  }

  lemma {:induction false} FindIs(t: Tree, w: Piece)
    requires Ordered(t) && w in Pieces(t)
    ensures Find(t, w.key) == Some(w)
  {
    match t
    case Node(l, q, r) =>
      if w in Pieces(l) {
        FindIs(l, w);
      } else if w in Pieces(r) {
        FindIs(r, w);
      }
  }

  lemma StepDown(t: Tree, k: Key)
    requires Ordered(t) && t.Node?
    ensures HasKey(Pieces(t), k) <==>
              if Less(k, t.piece.key) then HasKey(Pieces(t.left), k)
              else if Less(t.piece.key, k) then HasKey(Pieces(t.right), k)
              else true
  {
    assert t.piece in Pieces(t);
    if q :| q in Pieces(t) && q.key == k {
      assert q in Pieces(t.left) || q == t.piece || q in Pieces(t.right);
    }
    if q :| q in Pieces(t.left) && q.key == k {
      assert q in Pieces(t);
    }
    if q :| q in Pieces(t.right) && q.key == k {
      assert q in Pieces(t);
    }
  }

  lemma EraseOne(t: Tree, k: Key)
    requires Ordered(t) && HasKey(Pieces(t), k)
    ensures Ordered(Erase(t, k)) && Pieces(Erase(t, k)) == Without(Pieces(t), k)
    ensures !HasKey(Pieces(Erase(t, k)), k) && Size(Erase(t, k)) == Size(t) - 1
  {
    EraseIs(t, k);
    SizeIs(t);
    SizeIs(Erase(t, k));
    var w :| w in Pieces(t) && w.key == k;
    assert Without(Pieces(t), k) == Pieces(t) - {w} by {
      forall q | q in Pieces(t) && q.key == k ensures q == w {
        KeysUnique(t, q, w);
      }
    }
  }

  lemma InsertOne(t: Tree, p: Piece)
    requires Ordered(t) && !HasKey(Pieces(t), p.key)
    ensures Ordered(Insert(t, p)) && Pieces(Insert(t, p)) == Pieces(t) + {p}
    ensures Size(Insert(t, p)) == Size(t) + 1
  {
    InsertIs(t, p);
    SizeIs(t);
    SizeIs(Insert(t, p));
    assert p !in Pieces(t);
  }

  lemma NoneToDrop(s: set<Piece>, k: Key)
    requires !HasKey(s, k)
    ensures Without(s, k) == s
  {
  }

  lemma {:induction false} FindFinds(t: Tree, k: Key)
    requires Ordered(t)
    ensures Find(t, k).Some? <==> HasKey(Pieces(t), k)
    ensures Find(t, k).Some? ==> Find(t, k).value in Pieces(t) && Find(t, k).value.key == k
  {
    match t
    case Leaf =>
    case Node(l, q, r) =>
      StepDown(t, k);
      if Less(k, q.key) {
        FindFinds(l, k);
      } else if Less(q.key, k) {
        FindFinds(r, k);
      }
  }

  /** Following a pointer to an entry: None when the entry has been freed. */
  function Deref(t: Tree, id: nat): Option<Piece> {
    match t
    case Leaf => None
    case Node(l, q, r) =>
      if q.id == id then Some(q) else if Deref(l, id).Some? then Deref(l, id) else Deref(r, id)
  }

  ghost predicate HasId(s: set<Piece>, id: nat) {
    exists q :: q in s && q.id == id
  }

  lemma {:induction false} DerefIs(t: Tree, id: nat)
    ensures Deref(t, id).Some? <==> HasId(Pieces(t), id)
    ensures Deref(t, id).Some? ==> Deref(t, id).value in Pieces(t) && Deref(t, id).value.id == id
  {
    match t
    case Leaf =>
    case Node(l, q, r) =>
      DerefIs(l, id);
      DerefIs(r, id);
      assert q in Pieces(t);
      if w :| w in Pieces(t) && w.id == id {
        assert w in Pieces(l) || w == q || w in Pieces(r);
      }
  }

  // ----- The history and its operations -----

  /** `pending` maps a unit whose write is in flight to its entry (the unit's ipo
      pointer); `last` remembers the number of the last write logged per key. */
  datatype Hist = Hist(tree: Tree, len: int, pending: map<nat, nat>, last: map<Key, nat>)

  const Empty := Hist(Leaf, 0, map[], map[])

  /** log_io_piece in sorted mode. */
  function Log(h: Hist, u: nat, p: Piece): Hist {
    var clash := Find(h.tree, p.key).Some?;
    Hist(Insert(if clash then Erase(h.tree, p.key) else h.tree, p),
         if clash then h.len else h.len + 1,
         h.pending[u := p.id], h.last[p.key := p.numberio])
  }

  /** unlog_io_piece: the length falls even when the entry is already gone. */
  function Unlog(h: Hist, u: nat): Hist {
    if u !in h.pending then h
    else
      var q := Deref(h.tree, h.pending[u]);
      Hist(if q.Some? then Erase(h.tree, q.value.key) else h.tree, h.len - 1, h.pending - {u}, h.last)
  }

  /** io_completed on success: the entry may be verified from now on. */
  function Complete(h: Hist, u: nat): Hist {
    if u !in h.pending then h
    else
      var q := Deref(h.tree, h.pending[u]);
      Hist(if q.Some? then Update(h.tree, q.value.(inFlight := false)) else h.tree,
           h.len, h.pending - {u}, h.last)
  }

  ghost predicate InFlight(s: set<Piece>, id: nat) {
    exists p :: p in s && p.id == id && p.inFlight
  }

  ghost predicate IdsUnique(s: set<Piece>) {
    forall p <- s, q <- s :: p.id == q.id ==> p == q
  }

  /** Every unit under way has an entry of its own, still in the tree and in
      flight; there is one entry per key, the last one logged, and the length is
      the number of entries. */
  ghost predicate Inv(h: Hist) {
    && Ordered(h.tree) && h.len == Size(h.tree)
    && IdsUnique(Pieces(h.tree))
    && (forall p <- Pieces(h.tree) :: p.key in h.last && h.last[p.key] == p.numberio)
    && (forall u <- h.pending :: InFlight(Pieces(h.tree), h.pending[u]))
    && (forall u <- h.pending, v <- h.pending :: h.pending[u] == h.pending[v] ==> u == v)
  }

  /** The unit's write is in flight under the key. */
  ghost predicate Writing(h: Hist, v: nat, k: Key) {
    v in h.pending && exists q :: q in Pieces(h.tree) && q.id == h.pending[v] && q.key == k
  }

  /** Some other unit's write under the key is still in flight. */
  ghost predicate Busy(h: Hist, u: nat, k: Key) {
    exists v :: v != u && Writing(h, v, k)
  }

  // ----- Logging -----

  /** The entries afterwards, and by how much the length is off. */
  lemma LogIs(h: Hist, u: nat, p: Piece)
    requires Ordered(h.tree)
    ensures Ordered(Log(h, u, p).tree)
    ensures Pieces(Log(h, u, p).tree) == Without(Pieces(h.tree), p.key) + {p}
    ensures Log(h, u, p).len - Size(Log(h, u, p).tree) == h.len - Size(h.tree)
  {
    FindFinds(h.tree, p.key);
    hide Ordered, Pieces, Size, Insert, Erase, Find;
    if HasKey(Pieces(h.tree), p.key) {
      EraseOne(h.tree, p.key);
      InsertOne(Erase(h.tree, p.key), p);
    } else {
      NoneToDrop(Pieces(h.tree), p.key);
      InsertOne(h.tree, p);
    }
  }

  /** The entry a log replaces is freed: no pointer finds it any more. */
  lemma ReplacedIsGone(h: Hist, u: nat, p: Piece, v: nat)
    requires Inv(h) && !HasId(Pieces(h.tree), p.id) && v != u && Writing(h, v, p.key)
    ensures !HasId(Pieces(Log(h, u, p).tree), h.pending[v])
  {
    LogIs(h, u, p);
    hide Ordered, Pieces, Size, Log;
    var q :| q in Pieces(h.tree) && q.id == h.pending[v] && q.key == p.key;
  }

  lemma LoggedInFlight(h: Hist, u: nat, p: Piece, v: nat)
    requires Inv(h) && p.inFlight && !Busy(h, u, p.key)
    requires v in Log(h, u, p).pending
    ensures InFlight(Pieces(Log(h, u, p).tree), Log(h, u, p).pending[v])
  {
    LogIs(h, u, p);
    var t := Log(h, u, p).tree;
    assert v != u ==> v in h.pending;
    hide Ordered, Pieces, Size, Insert, Erase, Find;
    if v == u {
      assert p in Pieces(t);
    } else {
      var q :| q in Pieces(h.tree) && q.id == h.pending[v] && q.inFlight;
      assert q.key == p.key ==> Writing(h, v, p.key);
      assert q in Pieces(t);
    }
  }

  /** Logging a write keeps the history in order exactly when no other unit's
      write under the same key is still in flight. */
  lemma LoggedExact(h: Hist, u: nat, p: Piece)
    requires Inv(h) && p.inFlight && !HasId(Pieces(h.tree), p.id)
    ensures Inv(Log(h, u, p)) <==> !Busy(h, u, p.key)
  {
    LogIs(h, u, p);
    var e := Log(h, u, p);
    assert e.pending == h.pending[u := p.id] && e.last == h.last[p.key := p.numberio];
    if !Busy(h, u, p.key) {
      forall v <- e.pending ensures InFlight(Pieces(e.tree), e.pending[v]) {
        LoggedInFlight(h, u, p, v);
      }
      hide Ordered, Pieces, Size, Log, Busy;
      forall v <- h.pending ensures h.pending[v] != p.id {
        assert InFlight(Pieces(h.tree), h.pending[v]);
      }
    } else {
      var v :| v != u && Writing(h, v, p.key);
      ReplacedIsGone(h, u, p, v);
      hide Ordered, Pieces, Size, Log, Busy;
      assert v in e.pending && !InFlight(Pieces(e.tree), e.pending[v]);
    }
  }

  /** What the failing half costs: the older write's unit is left with a freed
      entry, and when that unit unlogs, the length no longer counts the entries. */
  lemma ReplacedEntryIsMiscounted(h: Hist, u: nat, p: Piece, v: nat)
    requires Inv(h) && p.inFlight && !HasId(Pieces(h.tree), p.id) && v != u && Writing(h, v, p.key)
    ensures var e := Log(h, u, p);
            && v in e.pending && Deref(e.tree, e.pending[v]) == None
            && Unlog(e, v).len == Size(Unlog(e, v).tree) - 1
  {
    var e := Log(h, u, p);
    LogIs(h, u, p);
    ReplacedIsGone(h, u, p, v);
    DerefIs(e.tree, e.pending[v]);
  }

  /** From the empty history: two units write at one place, and both unlog. */
  lemma TwoWritesAtOnePlace(u: nat, p: Piece, v: nat, q: Piece)
    requires u != v && p.key == q.key && p.id != q.id
    ensures Unlog(Unlog(Log(Log(Empty, u, p), v, q), u), v) == Hist(Leaf, -1, map[], map[q.key := q.numberio])
  {
    var one := Log(Empty, u, p);
    assert one == Hist(Node(Leaf, p, Leaf), 1, map[u := p.id], map[p.key := p.numberio]);
    var two := Log(one, v, q);
    assert two == Hist(Node(Leaf, q, Leaf), 1, map[u := p.id, v := q.id], map[q.key := q.numberio]);
    var three := Unlog(two, u);
    assert two.pending - {u} == map[v := q.id];
    assert two.pending[u] == p.id && Deref(two.tree, p.id) == None;
    assert three == Hist(Node(Leaf, q, Leaf), 0, map[v := q.id], map[q.key := q.numberio]);
    assert three.pending - {v} == map[];
  }

  // ----- Settling a write -----

  lemma TheEntry(h: Hist, u: nat) returns (w: Piece)
    requires Inv(h) && u in h.pending
    ensures w in Pieces(h.tree) && w.id == h.pending[u] && w.inFlight
    ensures Deref(h.tree, h.pending[u]) == Some(w)
    ensures HasKey(Pieces(h.tree), w.key) && Without(Pieces(h.tree), w.key) == Pieces(h.tree) - {w}
  {
    assert InFlight(Pieces(h.tree), h.pending[u]);
    w :| w in Pieces(h.tree) && w.id == h.pending[u] && w.inFlight;
    DerefIs(h.tree, h.pending[u]);
    forall q | q in Pieces(h.tree) && q.key == w.key ensures q == w {
      KeysUnique(h.tree, q, w);
    }
  }

  lemma SettledInv(h: Hist, t: Tree, u: nat, w: Piece)
    requires Inv(h) && u in h.pending && Ordered(t)
    requires w in Pieces(h.tree) && w.id == h.pending[u]
    requires || Pieces(t) == Pieces(h.tree) - {w}
             || Pieces(t) == Pieces(h.tree) - {w} + {w.(inFlight := false)}
    ensures Inv(Hist(t, Size(t), h.pending - {u}, h.last))
  {
    hide Ordered, Pieces, Size;
    var e := Hist(t, Size(t), h.pending - {u}, h.last);
    forall v <- e.pending ensures InFlight(Pieces(t), e.pending[v]) {
      assert InFlight(Pieces(h.tree), h.pending[v]);
      var q :| q in Pieces(h.tree) && q.id == h.pending[v] && q.inFlight;
      assert q in Pieces(t);
    }
  }

  /** Unlogging removes exactly the unit's own entry. */
  lemma UnlogIs(h: Hist, u: nat) returns (w: Piece)
    requires Inv(h) && u in h.pending
    ensures w in Pieces(h.tree) && w.id == h.pending[u] && w.inFlight
    ensures Inv(Unlog(h, u)) && Pieces(Unlog(h, u).tree) == Pieces(h.tree) - {w}
  {
    w := TheEntry(h, u);
    EraseOne(h.tree, w.key);
    SettledInv(h, Erase(h.tree, w.key), u, w);
  }

  /** Completing changes nothing but the flag of the unit's own entry. */
  lemma CompleteIs(h: Hist, u: nat) returns (w: Piece)
    requires Inv(h) && u in h.pending
    ensures w in Pieces(h.tree) && w.id == h.pending[u] && w.inFlight
    ensures Inv(Complete(h, u))
    ensures Pieces(Complete(h, u).tree) == Pieces(h.tree) - {w} + {w.(inFlight := false)}
  {
    w := TheEntry(h, u);
    var done := w.(inFlight := false);
    UpdateIs(h.tree, done, w);
    UpdateSize(h.tree, done);
    SettledInv(h, Update(h.tree, done), u, w);
  }

  // ----- Whole runs -----

  datatype Op = DoLog(u: nat, p: Piece) | DoUnlog(u: nat) | DoComplete(u: nat)

  function Apply(h: Hist, op: Op): Hist {
    match op
    case DoLog(u, p) => Log(h, u, p)
    case DoUnlog(u) => Unlog(h, u)
    case DoComplete(u) => Complete(h, u)
  }

  function Run(h: Hist, ops: seq<Op>): Hist
    decreases |ops|
  {
    if ops == [] then h else Run(Apply(h, ops[0]), ops[1..])
  }

  /** Fresh entries, and no write over one that is still in flight. */
  ghost predicate NoOverlap(h: Hist, ops: seq<Op>)
    decreases |ops|
  {
    ops == [] ||
    ((ops[0].DoLog? ==>
        var p := ops[0].p;
        p.inFlight && !HasId(Pieces(h.tree), p.id) && !Busy(h, ops[0].u, p.key))
     && NoOverlap(Apply(h, ops[0]), ops[1..]))
  }

  /** Any mix of logging, unlogging and completing that never writes over a write
      in flight keeps the history in order. */
  lemma {:induction false} RunKeepsInv(h: Hist, ops: seq<Op>)
    requires Inv(h) && NoOverlap(h, ops)
    ensures Inv(Run(h, ops))
    decreases |ops|
  {
    if ops != [] {
      StepKeepsInv(h, ops[0]);
      RunKeepsInv(Apply(h, ops[0]), ops[1..]);
    }
  }

  lemma StepKeepsInv(h: Hist, op: Op)
    requires Inv(h)
    requires op.DoLog? ==> op.p.inFlight && !HasId(Pieces(h.tree), op.p.id) && !Busy(h, op.u, op.p.key)
    ensures Inv(Apply(h, op))
  {
    match op
    case DoLog(u, p) => LoggedExact(h, u, p);
    case DoUnlog(u) =>
      if u in h.pending {
        var w := UnlogIs(h, u);
      }
    case DoComplete(u) =>
      if u in h.pending {
        var w := CompleteIs(h, u);
      }
  }

  // ----- The code -----

  class IoHistory {
    var tree: Tree
    var ioHistLen: int
    var pending: map<nat, nat>
    var last: map<Key, nat>

    ghost function Now(): Hist
      reads this
    {
      Hist(tree, ioHistLen, pending, last)
    }

    ghost predicate Valid()
      reads this
    {
      Inv(Now())
    }

    constructor ()
      ensures Valid() && Now() == Empty
    {
      tree, ioHistLen, pending, last := Leaf, 0, map[], map[];
    }

    /** The descent of log_io_piece: is there an entry with the key? */
    method Search(k: Key) returns (found: bool)
      requires Ordered(tree)
      ensures found <==> HasKey(Pieces(tree), k)
      ensures found <==> Find(tree, k).Some?
    {
      FindFinds(tree, k);
      var cur := tree;
      while cur.Node?
        invariant Ordered(cur)
        invariant HasKey(Pieces(tree), k) <==> HasKey(Pieces(cur), k)
        decreases cur
      {
        StepDown(cur, k);
        if Less(k, cur.piece.key) {
          cur := cur.left;
        } else if Less(cur.piece.key, k) {
          cur := cur.right;
        } else {
          return true;
        }
      }
      return false;
    }

    /** log_io_piece in sorted mode, for every key: an old entry under it gives way
        to the new one, and the restart after that happens once. */
    method LogIoPiece(u: nat, id: nat, k: Key, len: nat, numberio: nat)
      requires Ordered(tree)
      modifies this
      ensures Ordered(tree) && Now() == Log(old(Now()), u, Piece(id, k, len, numberio, true))
      ensures Pieces(tree) == Without(old(Pieces(tree)), k) + {Piece(id, k, len, numberio, true)}
      ensures old(Valid()) && !HasId(old(Pieces(tree)), id) ==> (Valid() <==> !Busy(old(Now()), u, k))
    {
      var p := Piece(id, k, len, numberio, true);
      LogIs(Now(), u, p);
      if Valid() && !HasId(Pieces(tree), id) {
        LoggedExact(Now(), u, p);
      }
      hide Ordered, Pieces, Size, Insert, Erase, Find, Inv, Busy;
      var found := Search(k);
      while found
        invariant Ordered(tree) && pending == old(pending) && last == old(last)
        invariant found ==> tree == old(tree) && ioHistLen == old(ioHistLen) && HasKey(Pieces(tree), k)
        invariant found ==> Find(tree, k).Some?
        invariant !found ==> Dropped(old(tree), k, tree)
        invariant !found ==> ioHistLen == old(ioHistLen) - (if Find(old(tree), k).Some? then 1 else 0)
        decreases found
      {
        EraseOne(tree, k);
        ioHistLen := ioHistLen - 1;
        tree := Erase(tree, k);
        found := Search(k);
      }
      tree := Insert(tree, p);
      ioHistLen := ioHistLen + 1;
      pending := pending[u := p.id];
      last := last[k := numberio];
    }

    /** unlog_io_piece: nothing happens for a unit without an entry. */
    method UnlogIoPiece(u: nat)
      modifies this
      ensures Now() == Unlog(old(Now()), u)
      ensures old(Valid()) ==> Valid()
      ensures old(Valid()) && u in old(pending) ==>
                exists w :: w in old(Pieces(tree)) && w.id == old(pending)[u] && Pieces(tree) == old(Pieces(tree)) - {w}
    {
      if u in pending {
        if Valid() {
          ghost var w := UnlogIs(Now(), u);
        }
        hide Ordered, Pieces, Size, Erase, Deref, Inv;
        var q := Deref(tree, pending[u]);
        if q.Some? {
          tree := Erase(tree, q.value.key);
        }
        ioHistLen := ioHistLen - 1;
        pending := pending - {u};
      }
    }

    /** io_completed on success: the entry may be verified from now on. */
    method CompleteWrite(u: nat)
      modifies this
      ensures Now() == Complete(old(Now()), u)
      ensures old(Valid()) ==> Valid()
      ensures old(Valid()) && u in old(pending) ==>
                exists w :: w in old(Pieces(tree)) && w.id == old(pending)[u]
                            && Pieces(tree) == old(Pieces(tree)) - {w} + {w.(inFlight := false)}
    {
      if u in pending {
        if Valid() {
          ghost var w := CompleteIs(Now(), u);
        }
        hide Ordered, Pieces, Size, Update, Deref, Inv;
        var q := Deref(tree, pending[u]);
        if q.Some? {
          tree := Update(tree, q.value.(inFlight := false));
        }
        pending := pending - {u};
      }
    }

    /** The tree loop of prune_io_piece_log.  It leaves the history in order
        exactly when no unit still points at an entry. */
    method PruneIoPieceLog()
      modifies this
      ensures tree == Leaf && ioHistLen == old(ioHistLen) - Size(old(tree))
      ensures pending == old(pending) && last == old(last)
      ensures old(Valid()) ==> ioHistLen == 0 && (Valid() <==> pending == map[])
    {
      while tree.Node?
        invariant ioHistLen - Size(tree) == old(ioHistLen) - Size(old(tree))
        invariant pending == old(pending) && last == old(last)
        decreases Size(tree)
      {
        DropFirstSize(tree);
        tree := DropFirst(tree);
        ioHistLen := ioHistLen - 1;
      }
      if pending != map[] {
        var u :| u in pending;
        assert !InFlight(Pieces(tree), pending[u]);
      }
    }
  }

  /** The tree with whatever was under the key erased. */
  ghost predicate Dropped(t: Tree, k: Key, t': Tree) {
    t' == if Find(t, k).Some? then Erase(t, k) else t
  }

  lemma {:induction false} DropFirstSize(t: Tree)
    requires t.Node?
    ensures Size(DropFirst(t)) == Size(t) - 1
  {
    if t.left.Node? {
      DropFirstSize(t.left);
    }
  }

  lemma {:induction false} UpdateSize(t: Tree, p: Piece)
    ensures Size(Update(t, p)) == Size(t)
  {
    match t
    case Leaf =>
    case Node(l, q, r) =>
      UpdateSize(l, p);
      UpdateSize(r, p);
  }
}
