/**
 * The `Quarantine` of trion_runtime.py: an ownership tracker that keeps
 * the buffers it allocates and the strings it duplicates, forgets an item
 * when it is freed, and refuses new buffers once it is sealed. A failing
 * operation sets the runtime's last-error text; here every operation
 * reports the text it set, if any, beside its new state and its result.
 *
 * `alloc` hands out the very `bytearray` it keeps, so a caller's write
 * through the returned buffer changes the held item. Buffers are therefore
 * modelled by identity: `alloc` issues a fresh identity, the contents of
 * every buffer live in a store keyed by identity, and `Write` is the
 * caller's `buf[k] = v`. `free` finds its victim with `list.remove`, which
 * compares by `==`: a held buffer matches any byte buffer with the same
 * current contents, and a held string any equal string.
 */
module RuntimeQuarantine {
  import opened Common
  import opened Base12

  const AllocArgsError := "quarantine_alloc: invalid args"
  const SealedError := "quarantine_alloc: quarantined sealed"
  const FreeArgsError := "quarantine_free: invalid args"
  const NotFoundError := "quarantine_free: pointer not found"

  /** A held item: the buffer `alloc` issued under identity `id`, or a string from `strdup`. */
  datatype Item = Buffer(id: nat) | Text(text: string)

  /**
   * What a caller passes to `free`: a buffer `alloc` returned (by its
   * identity), some other byte buffer with the given contents, or a string.
   */
  datatype Obj = Ref(id: nat) | Bytes(bytes: seq<byte>) | Str(s: string)

  /**
   * The items held in order, whether `alloc` is refused, the contents of
   * every buffer `alloc` has made (by identity, held or not), and the next
   * identity to issue.
   */
  datatype Quarantine = Quarantine(items: seq<Item>, sealed: bool, store: map<nat, seq<byte>>, next: nat)

  /** Every identity in the store was issued before `next`, so `next` names no buffer yet. */
  predicate Issued(q: Quarantine) {
    forall k :: k in q.store ==> k < q.next
  }

  /** An operation's new state, what it returns, and the last-error text it set (`None`: left as it was). */
  datatype Reply<T> = Reply(q: Quarantine, value: T, error: Option<string>)

  /** `Quarantine()`: nothing held, not sealed. The capacity hint has no effect. */
  function New(): Quarantine {
    Quarantine([], false, map[], 0)
  }

  /** `bytearray(size)`. */
  function Zeros(size: nat): (b: seq<byte>)
    ensures |b| == size && forall i :: 0 <= i < size ==> b[i] == 0
  {
    seq(size, _ => 0 as byte)
  }

  /**
   * `alloc(size)`: a size of zero or less is rejected first, then a sealed
   * quarantine refuses; otherwise a new zero-filled buffer is kept and the
   * very same buffer returned.
   */
  function Alloc(q: Quarantine, size: int): (r: Reply<Option<nat>>)
    ensures r.value.Some? <==> size > 0 && !q.sealed
    ensures r.value.Some? ==>
      var id := r.value.value;
      r.error.None? && r.q.store == q.store[id := Zeros(size)]
      && r.q.items == q.items + [Buffer(id)] && r.q.sealed == q.sealed
    ensures r.value.Some? && Issued(q) ==> r.value.value !in q.store && Issued(r.q)
    ensures r.value.None? ==> r.q == q && r.error == Some(if size <= 0 then AllocArgsError else SealedError)
  {
    if size <= 0 then Reply(q, None, Some(AllocArgsError))
    else if q.sealed then Reply(q, None, Some(SealedError))
    else
      var id := q.next;
      Reply(Quarantine(q.items + [Buffer(id)], q.sealed, q.store[id := Zeros(size)], id + 1), Some(id), None)
  }

  /** `buf[k] = v` on the buffer with identity `id`; `None` is the `IndexError` of an index out of range. */
  function Write(q: Quarantine, id: nat, k: int, v: byte): (r: Option<Quarantine>)
    ensures r.Some? <==> id in q.store && -|q.store[id]| <= k < |q.store[id]|
    ensures r.Some? ==>
      var b := q.store[id];
      var j := if k < 0 then k + |b| else k;
      r.value == q.(store := q.store[id := b[j := v]])
  {
    if id !in q.store then None
    else
      var b := q.store[id];
      if k < -|b| || k >= |b| then None
      else
        var j := if k < 0 then k + |b| else k;
        Some(q.(store := q.store[id := b[j := v]]))
  }

  /** `item == obj` as Python compares a held item with what `free` was given. */
  predicate Matches(q: Quarantine, item: Item, x: Obj) {
    match item
    case Buffer(j) =>
      j in q.store && (match x
        case Ref(id) => id in q.store && q.store[id] == q.store[j]
        case Bytes(b) => b == q.store[j]
        case Str(_) => false)
    case Text(t) => x.Str? && x.s == t
  }

  /** The position of the first held item equal to `x`, as `list.remove` finds it. */
  function FirstMatch(q: Quarantine, x: Obj, from: nat): (r: Option<nat>)
    requires from <= |q.items|
    ensures r.Some? <==> exists i :: from <= i < |q.items| && Matches(q, q.items[i], x)
    ensures r.Some? ==> from <= r.value < |q.items| && Matches(q, q.items[r.value], x)
    ensures r.Some? ==> forall i :: from <= i < r.value ==> !Matches(q, q.items[i], x)
    decreases |q.items| - from
  {
    if from == |q.items| then None
    else if Matches(q, q.items[from], x) then Some(from)
    else FirstMatch(q, x, from + 1)
  }

  /**
   * `free(obj)`: `None` is rejected; otherwise the first held item equal to
   * `obj` is dropped and 0 returned, or -1 when nothing equal is held.
   * Buffer contents are untouched: only the list forgets the item.
   */
  function Free(q: Quarantine, obj: Option<Obj>): (r: Reply<int>)
    ensures r.value == 0 <==> obj.Some? && exists i :: 0 <= i < |q.items| && Matches(q, q.items[i], obj.value)
    ensures r.value == 0 ==>
      var i := FirstMatch(q, obj.value, 0).value;
      r.error.None? && r.q == q.(items := q.items[..i] + q.items[i + 1..])
      && multiset(r.q.items) == multiset(q.items) - multiset{q.items[i]}
    ensures r.value != 0 ==>
      r.value == -1 && r.q == q && r.error == Some(if obj.None? then FreeArgsError else NotFoundError)
  {
    if obj.None? then Reply(q, -1, Some(FreeArgsError))
    else
      match FirstMatch(q, obj.value, 0)
      case None => Reply(q, -1, Some(NotFoundError))
      case Some(i) =>
        RemoveAt(q.items, i);
        Reply(q.(items := q.items[..i] + q.items[i + 1..]), 0, None)
  }

  /** Dropping one position takes exactly that item out of the multiset. */
  lemma RemoveAt(s: seq<Item>, i: nat)
    requires i < |s|
    ensures multiset(s[..i] + s[i + 1..]) == multiset(s) - multiset{s[i]}
  {
    assert s == s[..i] + [s[i]] + s[i + 1..];
  }

  /** `seal()`: from now on `alloc` refuses. What is held stays. */
  function Seal(q: Quarantine): (r: Quarantine)
    ensures r.sealed && r.items == q.items && r.store == q.store
  {
    q.(sealed := true)
  }

  /** `destroy()`: everything held is forgotten; sealing and the buffers themselves are untouched. */
  function Destroy(q: Quarantine): (r: Quarantine)
    ensures r.items == [] && r.sealed == q.sealed && r.store == q.store
  {
    q.(items := [])
  }

  /** `strdup(s)`: the string is kept and returned, sealed or not. */
  function Strdup(q: Quarantine, s: string): (r: Reply<string>)
    ensures r.value == s && r.error.None?
    ensures r.q.items == q.items + [Text(s)] && r.q.sealed == q.sealed && r.q.store == q.store
  {
    Reply(q.(items := q.items + [Text(s)]), s, None)
  }

  // ---------------------------------------------------------------------
  // Properties

  /** The contents of a held buffer, or `[]` for a string. */
  function Contents(q: Quarantine, item: Item): seq<byte> {
    if item.Buffer? && item.id in q.store then q.store[item.id] else []
  }

  /**
   * A buffer just allocated can be freed, which leaves as many items held
   * as before the allocation. The item dropped is the first held buffer
   * with the same contents, which may be an older twin rather than the new
   * buffer itself (see `FreeTakesTwin`).
   */
  lemma AllocThenFree(q: Quarantine, size: int)
    requires size > 0 && !q.sealed
    ensures var a := Alloc(q, size);
      var f := Free(a.q, Some(Ref(a.value.value)));
      f.value == 0 && |f.q.items| == |q.items| && f.q.sealed == q.sealed
      && Contents(a.q, a.q.items[FirstMatch(a.q, Ref(a.value.value), 0).value]) == Zeros(size)
  {
    var a := Alloc(q, size);
    assert Matches(a.q, a.q.items[|q.items|], Ref(a.value.value));
  }

  /** A string just duplicated can be freed, which leaves the same items held as before. */
  lemma StrdupThenFree(q: Quarantine, s: string)
    ensures var d := Strdup(q, s);
      var f := Free(d.q, Some(Str(s)));
      f.value == 0 && multiset(f.q.items) == multiset(q.items)
  {
    var d := Strdup(q, s);
    assert Matches(d.q, d.q.items[|q.items|], Str(s));
    var i := FirstMatch(d.q, Str(s), 0).value;
    assert d.q.items[i] == Text(s);
  }

  /** After `destroy`, every `free` fails with "pointer not found" or "invalid args". */
  lemma DestroyThenFree(q: Quarantine, x: Option<Obj>)
    ensures Free(Destroy(q), x) == Reply(Destroy(q), -1, Some(if x.None? then FreeArgsError else NotFoundError))
  {
  }

  /**
   * The held buffer is the caller's buffer: after `buf[0] = 7` on a fresh
   * four-byte buffer, freeing `buf` succeeds, a fresh `bytearray(4)` no
   * longer matches it, and a separate buffer holding `[7, 0, 0, 0]` does.
   */
  lemma WriteThroughAlias()
    ensures var a := Alloc(New(), 4);
      var id := a.value.value;
      var w := Write(a.q, id, 0, 7).value;
      Free(w, Some(Ref(id))).value == 0
      && Free(w, Some(Bytes(Zeros(4)))).value == -1
      && Free(w, Some(Bytes([7, 0, 0, 0]))).value == 0
      && Free(a.q, Some(Bytes(Zeros(4)))).value == 0
  {
    var a := Alloc(New(), 4);
    var id := a.value.value;
    var w := Write(a.q, id, 0, 7).value;
    assert w.items == [Buffer(id)] && w.store[id] == [7, 0, 0, 0];
    assert Matches(w, w.items[0], Ref(id));
    assert Matches(w, w.items[0], Bytes([7, 0, 0, 0]));
    assert Zeros(4)[0] == 0;
    assert Matches(a.q, a.q.items[0], Bytes(Zeros(4)));
  }

  /**
   * `list.remove` compares by value, so freeing the second of two equal
   * buffers forgets the first one and keeps the buffer that was passed.
   */
  lemma FreeTakesTwin()
    ensures var a := Alloc(New(), 2);
      var b := Alloc(a.q, 2);
      var f := Free(b.q, Some(Ref(b.value.value)));
      f.value == 0 && f.q.items == [Buffer(b.value.value)] && a.value.value != b.value.value
  {
    var a := Alloc(New(), 2);
    var b := Alloc(a.q, 2);
    assert b.q.items == [Buffer(a.value.value), Buffer(b.value.value)];
    assert Matches(b.q, b.q.items[0], Ref(b.value.value));
  }

  /** The operations, for reasoning about any sequence of calls. */
  datatype Op =
    | AllocOp(size: int)
    | FreeOp(obj: Option<Obj>)
    | SealOp
    | DestroyOp
    | StrdupOp(s: string)
    | WriteOp(id: nat, k: int, v: byte)

  /** The state after one call; a write that raises `IndexError` changes nothing. */
  function Step(q: Quarantine, op: Op): Quarantine {
    match op
    case AllocOp(size) => Alloc(q, size).q
    case FreeOp(obj) => Free(q, obj).q
    case SealOp => Seal(q)
    case DestroyOp => Destroy(q)
    case StrdupOp(s) => Strdup(q, s).q
    case WriteOp(id, k, v) => (match Write(q, id, k, v) case Some(w) => w case None => q)
  }

  /** The state after the calls in order. */
  function Run(q: Quarantine, ops: seq<Op>): Quarantine
    decreases |ops|
  {
    if ops == [] then q else Run(Step(q, ops[0]), ops[1..])
  }

  /** Sealing is permanent: no sequence of calls unseals. */
  lemma {:induction false} SealedStaysSealed(q: Quarantine, ops: seq<Op>)
    requires q.sealed
    ensures Run(q, ops).sealed
    decreases |ops|
  {
    if ops != [] {
      SealedStaysSealed(Step(q, ops[0]), ops[1..]);
    }
  }

  /** Once sealed, every later `alloc` is refused with "quarantined sealed" or "invalid args". */
  lemma SealedRefusesAlloc(q: Quarantine, ops: seq<Op>, size: int)
    requires q.sealed
    ensures var a := Alloc(Run(q, ops), size);
      a.value.None? && a.error == Some(if size <= 0 then AllocArgsError else SealedError)
  {
    SealedStaysSealed(q, ops);
  }

  /** Held position `i` is a buffer that exists and is not empty. */
  predicate LiveAt(q: Quarantine, i: int)
    requires 0 <= i < |q.items|
  {
    q.items[i].Buffer? ==> q.items[i].id in q.store && |q.store[q.items[i].id]| > 0
  }

  /** No buffer is held at two positions. */
  predicate HeldOnce(items: seq<Item>) {
    forall i, j :: 0 <= i < j < |items| && items[i].Buffer? ==> items[j] != items[i]
  }

  /**
   * Every held buffer is a non-empty buffer `alloc` made, no buffer is
   * held at two positions, and no identity at or after `next` is in use:
   * each `alloc` issues a new identity, and `free` forgets one position only.
   */
  predicate Tracked(q: Quarantine) {
    Issued(q) && (forall i :: 0 <= i < |q.items| ==> LiveAt(q, i)) && HeldOnce(q.items)
  }

  /** Dropping a position keeps what held for every position. */
  lemma DropKeepsTracked(q: Quarantine, i: nat)
    requires Tracked(q) && i < |q.items|
    ensures Tracked(q.(items := q.items[..i] + q.items[i + 1..]))
  {
    var r := q.(items := q.items[..i] + q.items[i + 1..]);
    forall j | 0 <= j < |r.items|
      ensures r.items[j] == q.items[if j < i then j else j + 1]
    {
    }
    forall j | 0 <= j < |r.items|
      ensures LiveAt(r, j)
    {
      assert LiveAt(q, if j < i then j else j + 1);
    }
  }

  /** Appending an item that is not a held buffer keeps every buffer held once. */
  lemma AppendHeldOnce(items: seq<Item>, x: Item)
    requires HeldOnce(items) && (x.Buffer? ==> x !in items)
    ensures HeldOnce(items + [x])
  {
    var r := items + [x];
    forall i, j | 0 <= i < j < |r| && r[i].Buffer?
      ensures r[j] != r[i]
    {
      if j == |items| {
        assert r[i] == items[i];
      }
    }
  }

  /** An accepted `alloc` keeps the quarantine tracked: its identity is new. */
  lemma AllocKeepsTracked(q: Quarantine, size: int)
    requires Tracked(q) && Alloc(q, size).value.Some?
    ensures Tracked(Alloc(q, size).q)
  {
    var a := Alloc(q, size);
    var id := a.value.value;
    forall j | 0 <= j < |q.items|
      ensures q.items[j] != Buffer(id)
    {
      assert LiveAt(q, j);
    }
    AppendHeldOnce(q.items, Buffer(id));
    forall j | 0 <= j < |a.q.items|
      ensures LiveAt(a.q, j)
    {
      if j < |q.items| {
        assert LiveAt(q, j);
      }
    }
  }

  /** A call that changes neither the items nor the identities in use, nor shrinks a buffer, keeps the quarantine tracked. */
  lemma SameItemsKeepTracked(q: Quarantine, r: Quarantine)
    requires Tracked(q) && r.items == q.items && r.next == q.next && r.store.Keys == q.store.Keys
    requires forall k :: k in q.store ==> |r.store[k]| == |q.store[k]|
    ensures Tracked(r)
  {
    forall j | 0 <= j < |r.items|
      ensures LiveAt(r, j)
    {
      assert LiveAt(q, j);
    }
  }

  /** One call keeps every held buffer live and held once. */
  lemma StepKeepsTracked(q: Quarantine, op: Op)
    requires Tracked(q)
    ensures Tracked(Step(q, op))
  {
    match op
    case AllocOp(size) =>
      if Alloc(q, size).value.Some? {
        AllocKeepsTracked(q, size);
      }
    case FreeOp(obj) =>
      if Free(q, obj).value == 0 {
        DropKeepsTracked(q, FirstMatch(q, obj.value, 0).value);
      }
    case SealOp =>
      SameItemsKeepTracked(q, Seal(q));
    case DestroyOp =>
    case StrdupOp(s) =>
      var d := Strdup(q, s).q;
      AppendHeldOnce(q.items, Text(s));
      forall j | 0 <= j < |d.items|
        ensures LiveAt(d, j)
      {
        if j < |q.items| {
          assert LiveAt(q, j);
        }
      }
    case WriteOp(id, k, v) =>
      SameItemsKeepTracked(q, Step(q, op));
  }

  /** Any sequence of calls keeps every held buffer live and held once. */
  lemma {:induction false} RunKeepsTracked(q: Quarantine, ops: seq<Op>)
    requires Tracked(q)
    ensures Tracked(Run(q, ops))
    decreases |ops|
  {
    if ops != [] {
      StepKeepsTracked(q, ops[0]);
      RunKeepsTracked(Step(q, ops[0]), ops[1..]);
    }
  }

  /** Each call adds at most one item, so a run holds at most one more item per call. */
  lemma {:induction false} RunGrowsByAtMostOne(q: Quarantine, ops: seq<Op>)
    ensures |Run(q, ops).items| <= |q.items| + |ops|
    decreases |ops|
  {
    if ops != [] {
      RunGrowsByAtMostOne(Step(q, ops[0]), ops[1..]);
    }
  }
}
