/** The doubly linked list with a cursor (shared/linkedlist.c) and the program lookup over it. */
module LinkedList {
  import opened Words

  datatype Option<+T> = None | Some(value: T)

  // ----- the list as a sequence of entries

  /** Where `x` occurs first, or the length if it does not. */
  function IndexOf<T(==)>(s: seq<T>, x: T): (k: nat)
    ensures k <= |s|
    ensures k < |s| ==> s[k] == x
    ensures forall i | 0 <= i < k :: s[i] != x
    ensures k == |s| <==> x !in s
  {
    if s == [] then 0 else if s[0] == x then 0 else 1 + IndexOf(s[1..], x)
  }

  function Without<T>(s: seq<T>, k: nat): (r: seq<T>)
    requires k < |s|
    ensures |r| == |s| - 1
  {
    s[..k] + s[k + 1..]
  }

  function RemoveFirst<T(==)>(s: seq<T>, x: T): seq<T>
  {
    if x in s then Without(s, IndexOf(s, x)) else s
  }

  datatype Op<+T> = Append(entry: T) | Delete(entry: T)

  /** The entries after a list of operations on an empty list. */
  function After<T(==)>(ops: seq<Op<T>>): seq<T>
  {
    if ops == [] then []
    else
      var before, op := After(ops[..|ops| - 1]), ops[|ops| - 1];
      match op
      case Append(x) => before + [x]
      case Delete(x) => RemoveFirst(before, x)
  }

  /** How many copies of `x` the operations leave: an append adds one, a delete takes one back if
      there is one. */
  function Balance<T(==)>(ops: seq<Op<T>>, x: T): nat
  {
    if ops == [] then 0
    else
      var before, op := Balance(ops[..|ops| - 1], x), ops[|ops| - 1];
      if op.entry != x then before
      else if op.Append? then before + 1
      else if before == 0 then 0 else before - 1
  }

  lemma RemoveFirstTakesOne<T>(s: seq<T>, x: T)
    ensures multiset(RemoveFirst(s, x)) == multiset(s) - multiset{x}
  {
    if x in s {
      var k := IndexOf(s, x);
      assert s == s[..k] + [x] + s[k + 1..];
    }
  }

  /** Nothing is lost or duplicated over any sequence of operations. */
  lemma {:induction false} EntriesAreConserved<T>(ops: seq<Op<T>>, x: T)
    ensures multiset(After(ops))[x] == Balance(ops, x)
    decreases |ops|
  {
    if ops != [] {
      EntriesAreConserved(ops[..|ops| - 1], x);
      RemoveFirstTakesOne(After(ops[..|ops| - 1]), ops[|ops| - 1].entry);
    }
  }

  /** Which back links are stale after the entry at `k` is taken out: with its successor relinked
      none that was not before, and otherwise the successor's. */
  function StaleWithout(stale: seq<bool>, k: nat, repair: bool): (r: seq<bool>)
    requires k < |stale|
    ensures |r| == |stale| - 1
  {
    var rest := Without(stale, k);
    if k < |rest| then rest[k := !repair] else rest
  }

  lemma StaleAfter(stale: seq<bool>, k: nat, repair: bool)
    requires k < |stale|
    ensures true !in stale ==> (true !in StaleWithout(stale, k, repair) <==> repair || k == |stale| - 1)
  {
    if true !in stale && !repair && k < |stale| - 1 {
      assert StaleWithout(stale, k, repair)[k];
    }
  }

  /** The back links that a list of operations leaves stale, entry by entry. */
  function Stale<T(==)>(ops: seq<Op<T>>, repair: bool): (r: seq<bool>)
    ensures |r| == |After(ops)|
  {
    if ops == [] then []
    else
      var prior, op := ops[..|ops| - 1], ops[|ops| - 1];
      match op
      case Append(x) => Stale(prior, repair) + [false]
      case Delete(x) =>
        if x in After(prior) then StaleWithout(Stale(prior, repair), IndexOf(After(prior), x), repair)
        else Stale(prior, repair)
  }

  /** The entry can be deleted: the list has a node to start from, and the node found, if any, has
      a back link to live memory. */
  predicate CanDelete<T(==)>(entries: seq<T>, stale: seq<bool>, x: T)
    requires |stale| == |entries|
  {
    entries != [] && (x in entries ==> !stale[IndexOf(entries, x)])
  }

  /** Every deletion among the operations can be done. */
  ghost predicate Sound<T>(ops: seq<Op<T>>, repair: bool)
  {
    forall k | 0 <= k < |ops| && ops[k].Delete? ::
      CanDelete(After(ops[..k]), Stale(ops[..k], repair), ops[k].entry)
  }

  lemma {:induction false} RepairedIsNeverStale<T>(ops: seq<Op<T>>)
    ensures true !in Stale(ops, true)
    decreases |ops|
  {
    if ops != [] {
      RepairedIsNeverStale(ops[..|ops| - 1]);
    }
  }

  /** With the repair, any operations that delete nothing from an empty list are sound. */
  lemma RepairedIsSound<T>(ops: seq<Op<T>>)
    ensures Sound(ops, true) <==> forall k | 0 <= k < |ops| && ops[k].Delete? :: After(ops[..k]) != []
  {
    forall k | 0 <= k < |ops| ensures true !in Stale(ops[..k], true) {
      RepairedIsNeverStale(ops[..k]);
    }
  }

  /** One more operation. */
  lemma {:induction false} Snoc<T>(ops: seq<Op<T>>, op: Op<T>, repair: bool)
    ensures After(ops + [op]) == if op.Append? then After(ops) + [op.entry] else RemoveFirst(After(ops), op.entry)
    ensures Stale(ops + [op], repair) ==
            if op.Append? then Stale(ops, repair) + [false]
            else if op.entry in After(ops) then
              StaleWithout(Stale(ops, repair), IndexOf(After(ops), op.entry), repair)
            else Stale(ops, repair)
    ensures Sound(ops + [op], repair) <==>
              Sound(ops, repair) && (op.Delete? ==> CanDelete(After(ops), Stale(ops, repair), op.entry))
  {
    var longer := ops + [op];
    assert longer[..|longer| - 1] == ops;
    hide After, Stale, CanDelete;
    assert forall k | 0 <= k <= |ops| :: longer[..k] == ops[..k];
    if Sound(longer, repair) && op.Delete? {
      assert longer[|ops|].Delete? && longer[..|ops|] == ops;
    }
  }

  lemma {:induction false} TwoEntries<T>(x: T, y: T)
    ensures After([Append(x), Append(y)]) == [x, y]
    ensures Stale([Append(x), Append(y)], false) == [false, false] && Sound([Append(x), Append(y)], false)
  {
    Snoc([], Append(x), false);
    Snoc([Append(x)], Append(y), false);
    assert [] + [Append(x)] == [Append(x)] && [Append(x)] + [Append(y)] == [Append(x), Append(y)];
  }

  /** One of two distinct entries deleted as written, and then the other. */
  lemma {:induction false} BothDeleted<T>(ops: seq<Op<T>>, x: T, y: T, front: bool)
    requires x != y && Sound(ops, false) && After(ops) == [x, y] && Stale(ops, false) == [false, false]
    ensures var (first, second) := if front then (x, y) else (y, x);
      Sound(ops + [Delete(first)] + [Delete(second)], false) <==> !front
  {
    hide After, Stale, Sound;
    var (first, second) := if front then (x, y) else (y, x);
    assert IndexOf([x, y], x) == 0 && IndexOf([x, y], y) == 1;
    Snoc(ops, Delete(first), false);
    assert After(ops + [Delete(first)]) == [second];
    assert Stale(ops + [Delete(first)], false) == [front];
    Snoc(ops + [Delete(first)], Delete(second), false);
  }

  /** As written, deleting two neighbours front to back follows a link to the freed first one;
      back to front it does not. */
  lemma {:induction false} NeighboursAsWritten<T>(x: T, y: T)
    requires x != y
    ensures !Sound([Append(x), Append(y)] + [Delete(x)] + [Delete(y)], false)
    ensures Sound([Append(x), Append(y)] + [Delete(y)] + [Delete(x)], false)
  {
    hide *;
    TwoEntries(x, y);
    BothDeleted([Append(x), Append(y)], x, y, true);
    BothDeleted([Append(x), Append(y)], x, y, false);
  }

  // ----- the linked structure

  class Node<T> {
    var previous: Node?<T>
    var next: Node?<T>
    const entry: T

    constructor (entry: T)
      ensures this.entry == entry && next == null && previous == null
    {
      this.entry := entry;
      next := null;
      previous := null;
    }
  }

  class List<T(==)> {
    var first: Node?<T>
    var last: Node?<T>
    var current: Node?<T>
    var entries: int
    ghost var nodes: seq<Node<T>>
    ghost var stale: seq<bool>

    /** The forward chain: `first`, `last`, `next` and the count describe `nodes`. */
    ghost predicate Chain()
      reads this, nodes
    {
      entries == |nodes| && Linked(first, last, nodes)
    }

    static ghost predicate Linked(first: Node?<T>, last: Node?<T>, ns: seq<Node<T>>)
      reads ns
    {
      && (ns == [] ==> first == null && last == null)
      && (ns != [] ==> first == ns[0] && last == ns[|ns| - 1] && ns[|ns| - 1].next == null)
      && (forall i {:trigger ns[i].next} | 0 <= i < |ns| - 1 :: ns[i].next == ns[i + 1])
      && (forall i, j | 0 <= i < j < |ns| :: ns[i] != ns[j])
    }

    /** Node `i` points back to its predecessor. */
    static ghost predicate LinkedBack(ns: seq<Node<T>>, i: nat)
      requires i < |ns|
      reads ns[i]
    {
      ns[i].previous == if i == 0 then null else ns[i - 1]
    }

    /** Node `i` points back to its predecessor, or, where stale, to a node that was taken out. */
    static ghost predicate LinkOrStale(ns: seq<Node<T>>, stale: bool, i: nat)
      requires i < |ns|
      reads ns[i]
    {
      if stale then ns[i].previous != null && ns[i].previous !in ns else LinkedBack(ns, i)
    }

    static ghost predicate Links(ns: seq<Node<T>>, stale: seq<bool>)
      requires |stale| == |ns|
      reads ns
    {
      forall i | 0 <= i < |ns| :: LinkOrStale(ns, stale[i], i)
    }

    ghost predicate BackLinks()
      reads this, nodes
    {
      forall i | 0 <= i < |nodes| :: LinkedBack(nodes, i)
    }

    ghost predicate Valid()
      reads this, nodes
    {
      Chain() && |stale| == |nodes| && Links(nodes, stale)
    }

    /** The list is well-formed in both directions exactly when no back link is stale. */
    lemma StaleDecides()
      requires Valid()
      ensures BackLinks() <==> true !in stale
    {
      if true in stale {
        var i :| 0 <= i < |stale| && stale[i];
        assert LinkOrStale(nodes, stale[i], i);
        assert i > 0 ==> nodes[i - 1] in nodes;
        assert !LinkedBack(nodes, i);
      } else {
        forall i | 0 <= i < |nodes| ensures LinkedBack(nodes, i) {
          assert LinkOrStale(nodes, stale[i], i);
        }
      }
    }

    ghost function Contents(): (s: seq<T>)
      reads this`nodes
      ensures |s| == |nodes|
      ensures forall i | 0 <= i < |s| :: s[i] == nodes[i].entry
    {
      Entries(nodes)
    }

    static ghost function Entries(ns: seq<Node<T>>): (s: seq<T>)
      ensures |s| == |ns|
      ensures forall i | 0 <= i < |s| :: s[i] == ns[i].entry
    {
      seq(|ns|, i requires 0 <= i < |ns| => ns[i].entry)
    }

    /** listInit */
    constructor ()
      ensures Valid() && Contents() == [] && stale == [] && current == null
    {
      first, last, current := null, null, null;
      entries := 0;
      nodes, stale := [], [];
    }

    /** listAddEntry */
    method Add(entry: T)
      requires Valid()
      modifies this`first, this`last, this`entries, this`nodes, this`stale, nodes
      ensures Valid() && Contents() == old(Contents()) + [entry] && stale == old(stale) + [false]
      ensures |nodes| == |old(nodes)| + 1 && nodes[..|old(nodes)|] == old(nodes) && fresh(nodes[|old(nodes)|])
    {
      var listentry := new Node(entry);
      if first == null {
        first := listentry;
        last := listentry;
        listentry.previous := null;
      } else {
        listentry.previous := last;
        last.next := listentry;
        last := listentry;
      }
      entries := entries + 1;
      LinksAppended(nodes, stale, listentry);
      hide Links, LinkOrStale;
      nodes, stale := nodes + [listentry], stale + [false];
    }

    static lemma LinksAppended(ns: seq<Node<T>>, stale: seq<bool>, e: Node<T>)
      requires |stale| == |ns| && Links(ns, stale) && e !in ns
      requires forall i {:trigger ns[i]} | 0 <= i < |ns| :: ns[i].previous != e
      requires e.previous == if ns == [] then null else ns[|ns| - 1]
      ensures Links(ns + [e], stale + [false])
    {
      forall i | 0 <= i < |ns| ensures LinkOrStale(ns + [e], stale[i], i) {
        assert LinkOrStale(ns, stale[i], i);
      }
      assert LinkOrStale(ns + [e], false, |ns|);
    }

    /** The search loop of listRemoveEntry: the node of the first match, or none. */
    method Search(entry: T) returns (found: bool)
      requires Chain() && nodes != []
      modifies this`current
      ensures found <==> entry in Contents()
      ensures current == if found then nodes[IndexOf(Contents(), entry)] else last
    {
      current := first;
      ghost var k := 0;
      while true
        invariant Chain() && k < |nodes| && current == nodes[k]
        invariant forall i | 0 <= i < k :: Contents()[i] != entry
        decreases |nodes| - k
      {
        if current.entry == entry {
          assert Contents()[k] == entry;
          return true;
        }
        if current == last {
          assert k == |nodes| - 1;
          return false;
        }
        current := current.next;
        k := k + 1;
      }
    }

    /** The neighbours of the cursor's node `k` are linked past it. */
    method LinkPast(ghost k: nat, repair: bool)
      requires Valid() && k < |nodes| && current == nodes[k] && !stale[k]
      modifies nodes
      ensures LinksForward(nodes, k) && nodes[k].next == old(nodes[k].next)
      ensures LinkedBack(nodes, k)
      ensures forall j | 0 <= j < |nodes| && !(repair && j == k + 1) :: LinkOrStale(nodes, stale[j], j)
      ensures repair && k + 1 < |nodes| ==> nodes[k + 1].previous == nodes[k].previous
    {
      assert forall j | 0 <= j < |nodes| :: LinkOrStale(nodes, stale[j], j);
      if current.previous != null {
        current.previous.next := current.next;
      }
      if repair && current.next != null {
        current.next.previous := current.previous;
      }
    }

    /** The relinking part of listRemoveEntry. */
    method Unlink(ghost k: nat, repair: bool)
      requires Valid() && k < |nodes| && current == nodes[k] && !stale[k]
      modifies this, nodes
      ensures nodes == Without(old(nodes), k) && stale == StaleWithout(old(stale), k, repair)
      ensures Valid() && current == first
    {
      ghost var ns := nodes;
      assert (current == first <==> k == 0) && (current == last <==> k == |ns| - 1);
      LinkPast(k, repair);
      var next, previous := current.next, current.previous;
      assert next == if k + 1 < |ns| then ns[k + 1] else null;
      assert previous == if k > 0 then ns[k - 1] else null;
      assert first == ns[0] && last == ns[|ns| - 1];
      ForwardWithout(ns, k);
      LinksWithout(ns, stale, k, repair);
      hide Links, LinkOrStale, LinksForward, Linked, Without, StaleWithout;
      if current == last {
        last := previous;
      }
      if current == first {
        first := next;
      }
      current := first;
      entries := entries - 1;
      nodes, stale := Without(ns, k), StaleWithout(stale, k, repair);
      assert first == if k > 0 then ns[0] else if |ns| > 1 then ns[1] else null;
      assert last == if k + 1 < |ns| then ns[|ns| - 1] else if k > 0 then ns[k - 1] else null;
    }

    /** Every node but `k` links to the next one other than `k`. */
    static ghost predicate LinksForward(ns: seq<Node<T>>, k: nat)
      reads ns
    {
      && (forall j {:trigger ns[j].next} | 0 <= j < |ns| - 1 && j != k - 1 :: ns[j].next == ns[j + 1])
      && (k == |ns| - 1 || ns == [] || ns[|ns| - 1].next == null)
      && (0 < k < |ns| ==> ns[k - 1].next == if k + 1 < |ns| then ns[k + 1] else null)
    }

    static lemma ForwardWithout(ns: seq<Node<T>>, k: nat)
      requires k < |ns| && LinksForward(ns, k)
      requires forall i, j | 0 <= i < j < |ns| :: ns[i] != ns[j]
      ensures Linked(if k > 0 then ns[0] else if |ns| > 1 then ns[1] else null,
                     if k + 1 < |ns| then ns[|ns| - 1] else if k > 0 then ns[k - 1] else null,
                     Without(ns, k))
    {
      var ms := Without(ns, k);
      forall i | 0 <= i < |ms| - 1 ensures ms[i].next == ms[i + 1] {
        assert ms[i] == ns[if i < k then i else i + 1];
        assert ms[i + 1] == ns[if i + 1 < k then i + 1 else i + 2];
      }
      if ms != [] {
        assert ms[|ms| - 1] == ns[if k == |ns| - 1 then k - 1 else |ns| - 1];
      }
    }

    /** Taking out node `k` leaves every back link as it was but its successor's, which is right
        exactly when it was relinked. */
    static lemma LinksWithout(ns: seq<Node<T>>, stale: seq<bool>, k: nat, repaired: bool)
      requires k < |ns| == |stale| && LinkedBack(ns, k)
      requires forall i, j | 0 <= i < j < |ns| :: ns[i] != ns[j]
      requires forall j | 0 <= j < |ns| && !(repaired && j == k + 1) :: LinkOrStale(ns, stale[j], j)
      requires repaired && k + 1 < |ns| ==> ns[k + 1].previous == ns[k].previous
      ensures Links(Without(ns, k), StaleWithout(stale, k, repaired))
    {
      var ms, left := Without(ns, k), StaleWithout(stale, k, repaired);
      forall i | 0 <= i < |ms| ensures LinkOrStale(ms, left[i], i) {
        var j := if i < k then i else i + 1;
        assert ms[i] == ns[j];
        assert i > 0 ==> ms[i - 1] == ns[if i <= k then i - 1 else i];
        assert !(repaired && j == k + 1) ==> LinkOrStale(ns, stale[j], j);
      }
    }

    static lemma EntriesWithout(ns: seq<Node<T>>, k: nat)
      requires k < |ns|
      ensures Entries(Without(ns, k)) == Without(Entries(ns), k)
    {
    }

    /** listRemoveEntry. With `repair` the successor's back link is set as meant; the code as
        written leaves it, and must not be asked to remove a node whose back link an earlier
        removal left stale: it would write to freed memory. Both give the right forward chain,
        ends and count; a well-formed list stays well-formed if and only if it is repaired or
        the removed node was the last. */
    method Remove(entry: T, repair: bool) returns (r: int)
      requires Valid() && CanDelete(Contents(), stale, entry)
      modifies this, nodes
      ensures r == if entry in old(Contents()) then 0 else -1
      ensures Valid() && Contents() == RemoveFirst(old(Contents()), entry)
      ensures r == -1 ==> nodes == old(nodes) && stale == old(stale) && current == last
      ensures r == 0 ==>
                var k := IndexOf(old(Contents()), entry);
                && nodes == Without(old(nodes), k) && stale == StaleWithout(old(stale), k, repair)
                && current == first
                && (old(BackLinks()) ==> (BackLinks() <==> repair || k == |old(nodes)| - 1))
    {
      hide List.Linked, List.Links, List.LinkedBack, List.BackLinks;
      StaleDecides();
      var found := Search(entry);
      if !found {
        return -1;
      }
      ghost var k := IndexOf(Contents(), entry);
      StaleAfter(stale, k, repair);
      EntriesWithout(nodes, k);
      hide IndexOf, Without, StaleWithout;
      Unlink(k, repair);
      StaleDecides();
      return 0;
    }

    /** One operation. */
    method Apply(op: Op<T>, repair: bool)
      requires Valid() && (op.Delete? ==> CanDelete(Contents(), stale, op.entry))
      modifies this, nodes
      ensures Valid()
      ensures Contents() == if op.Append? then old(Contents()) + [op.entry] else RemoveFirst(old(Contents()), op.entry)
      ensures stale == if op.Append? then old(stale) + [false]
                       else if op.entry in old(Contents()) then
                         StaleWithout(old(stale), IndexOf(old(Contents()), op.entry), repair)
                       else old(stale)
      ensures forall k | 0 <= k < |nodes| :: nodes[k] in old(nodes) || fresh(nodes[k])
    {
      hide CanDelete, StaleWithout, RemoveFirst, List.Linked, List.Links, List.LinkedBack, List.BackLinks;
      match op
      case Append(x) =>
        Add(x);
      case Delete(x) =>
        var _ := Remove(x, repair);
    }

    /** listFirstEntry */
    method FirstEntry() returns (entry: T)
      requires Chain() && nodes != []
      modifies this`current
      ensures current == nodes[0] && entry == Contents()[0]
    {
      current := first;
      entry := first.entry;
    }

    /** listNextEntry, with the cursor on node `i`. */
    method NextEntry(ghost i: nat) returns (entry: Option<T>)
      requires Chain() && i < |nodes| && current == nodes[i]
      modifies this`current
      ensures current == if i + 1 < |nodes| then nodes[i + 1] else null
      ensures entry == if i + 1 < |nodes| then Some(Contents()[i + 1]) else None
    {
      current := current.next;
      if current == null {
        entry := None;
      } else {
        entry := Some(current.entry);
      }
    }
  }

  // ----- runs of operations on the linked structure

  lemma EmptyReplay<T>(ops: seq<Op<T>>, repair: bool)
    ensures After(ops[..0]) == [] && Stale(ops[..0], repair) == []
  {
  }

  lemma {:induction false} Replayed<T>(ops: seq<Op<T>>, i: nat, repair: bool)
    requires i < |ops| && Sound(ops, repair)
    ensures ops[i].Delete? ==> CanDelete(After(ops[..i]), Stale(ops[..i], repair), ops[i].entry)
    ensures After(ops[..i + 1]) ==
            if ops[i].Append? then After(ops[..i]) + [ops[i].entry] else RemoveFirst(After(ops[..i]), ops[i].entry)
    ensures Stale(ops[..i + 1], repair) ==
            if ops[i].Append? then Stale(ops[..i], repair) + [false]
            else if ops[i].entry in After(ops[..i]) then
              StaleWithout(Stale(ops[..i], repair), IndexOf(After(ops[..i]), ops[i].entry), repair)
            else Stale(ops[..i], repair)
  {
    hide After, Stale, CanDelete, StaleWithout, IndexOf;
    Snoc(ops[..i], ops[i], repair);
    assert ops[..i + 1] == ops[..i] + [ops[i]];
  }

  /** Any sound operations on a new list leave the entries, and the stale links, that the
      sequences say; with the repair the list ends well-formed. */
  method Replay<T(==)>(ops: seq<Op<T>>, repair: bool) returns (list: List<T>)
    requires Sound(ops, repair)
    ensures fresh(list) && list.Valid()
    ensures list.Contents() == After(ops) && list.entries == |After(ops)|
    ensures list.stale == Stale(ops, repair)
    ensures list.BackLinks() <==> true !in Stale(ops, repair)
    ensures repair ==> list.BackLinks()
  {
    hide After, Stale, Sound, CanDelete, RemoveFirst, StaleWithout, IndexOf;
    hide List.Linked, List.Links, List.LinkedBack, List.BackLinks;
    list := new List();
    EmptyReplay(ops, repair);
    for i := 0 to |ops|
      invariant fresh(list) && (forall k | 0 <= k < |list.nodes| :: fresh(list.nodes[k]))
      invariant list.Valid() && list.Contents() == After(ops[..i]) && list.stale == Stale(ops[..i], repair)
    {
      Replayed(ops, i, repair);
      list.Apply(ops[i], repair);
    }
    assert ops[..|ops|] == ops;
    list.StaleDecides();
    if repair { RepairedIsNeverStale(ops); }
  }

  /** listFirstEntry and listNextEntry enumerate the entries, each once and in order. */
  method Enumerate<T(==)>(list: List<T>) returns (s: seq<T>)
    requires list.Chain()
    modifies list`current
    ensures list.Chain() && s == list.Contents()
  {
    if list.entries == 0 {
      return [];
    }
    var first := list.FirstEntry();
    var entry := Some(first);
    s := [];
    while entry.Some?
      invariant list.Chain() && |s| <= |list.nodes| && s == list.Contents()[..|s|]
      invariant entry.Some? ==>
                  |s| < |list.nodes| && list.current == list.nodes[|s|] && entry.value == list.Contents()[|s|]
      invariant entry.None? ==> |s| == |list.nodes|
      decreases |list.nodes| - |s|, entry.Some?
    {
      s := s + [entry.value];
      entry := list.NextEntry(|s| - 1);
    }
  }

  // ----- programs

  /** A registered program, as the list holds it. */
  datatype Program = Program(id: Word, size: Word)

  /** The lookup of stage3: by the cursor, the first program with the wanted id. */
  method LookUp(programs: List<Program>, id: Word) returns (prog: Option<Program>)
    requires programs.Valid() && programs.nodes != []
    modifies programs`current
    ensures programs.Valid()
    ensures prog == None ==> forall p | p in programs.Contents() :: p.id != id
    ensures prog.Some? ==>
              var s := programs.Contents();
              var k := IndexOf(s, prog.value);
              prog.value.id == id && k < |s| && forall i | 0 <= i < k :: s[i].id != id
  {
    var first := programs.FirstEntry();
    prog := Some(first);
    ghost var i := 0;
    while prog.value.id != id
      invariant prog.Some? && programs.Valid() && i < |programs.nodes|
      invariant programs.current == programs.nodes[i] && prog == Some(programs.Contents()[i])
      invariant forall k | 0 <= k < i :: programs.Contents()[k].id != id
      decreases |programs.nodes| - i
    {
      prog := programs.NextEntry(i);
      if prog == None {
        return;
      }
      i := i + 1;
    }
  }
}
