/**
 The scheduler's queue of placement requests: an index-tracking binary heap over mutable items
 (cmd/orchestrator/scheduler.go:64-103, repeated in cmd/api/scheduler.go:49-85).

 `Len`, `Less`, `Swap`, `Push` and `Pop` are the source's; `HeapPush`, `HeapPop`, `Up` and `Down` are
 the algorithms of Go's container/heap that call them.
 */
module PendingHeap {

  datatype SandboxSpec = SandboxSpec(
    tenantID: string,
    image: string,
    cpuMillis: nat,
    memoryMiB: nat,
    timeoutMs: nat)

  /** The part of an item that decides its place: earlier deadline first, then higher priority. */
  datatype Urgency = Urgency(deadline: int, priority: int)

  predicate Before(a: Urgency, b: Urgency) {
    if a.deadline == b.deadline then a.priority > b.priority else a.deadline < b.deadline
  }

  lemma NotBeforeTransitive(a: Urgency, b: Urgency, c: Urgency)
    requires !Before(b, a) && !Before(c, b)
    ensures !Before(c, a)
  {
  }

  class PendingItem {
    const sandboxID: string
    const spec: SandboxSpec
    const deadline: int
    const priority: int
    var index: int

    constructor (sandboxID: string, spec: SandboxSpec, deadline: int, priority: int)
      ensures this.sandboxID == sandboxID && this.spec == spec
      ensures this.deadline == deadline && this.priority == priority && index == 0
    {
      this.sandboxID, this.spec := sandboxID, spec;
      this.deadline, this.priority := deadline, priority;
      this.index := 0;
    }

    function Key(): Urgency {
      Urgency(deadline, priority)
    }
  }

  function Parent(k: nat): nat
    requires k > 0
  {
    (k - 1) / 2
  }

  ghost predicate InOrder(s: seq<PendingItem>, k: nat)
    requires 0 < k < |s|
  {
    !Before(s[k].Key(), s[Parent(k)].Key())
  }

  ghost predicate HeapOrdered(s: seq<PendingItem>) {
    forall k :: 0 < k < |s| ==> InOrder(s, k)
  }

  /** Only position j may be smaller than its parent; its children do respect that parent. */
  ghost predicate OrderedExceptUp(s: seq<PendingItem>, j: nat) {
    && (forall k :: 0 < k < |s| && k != j ==> InOrder(s, k))
    && (forall k :: 0 < k < |s| && 0 < j < |s| && Parent(k) == j ==>
          !Before(s[k].Key(), s[Parent(j)].Key()))
  }

  /** Within the first n positions, only the children of i may be smaller than i. */
  ghost predicate OrderedExceptDown(s: seq<PendingItem>, i: nat, n: nat)
    requires n <= |s|
  {
    && (forall k :: 0 < k < n && Parent(k) != i ==> InOrder(s, k))
    && (forall k :: 0 < k < n && 0 < i < n && Parent(k) == i ==>
          !Before(s[k].Key(), s[Parent(i)].Key()))
  }

  /** t holds the items of s in another arrangement, and agrees with s from position n on. */
  ghost predicate Rearranged(s: seq<PendingItem>, t: seq<PendingItem>, n: nat) {
    && n <= |s| == |t|
    && s[n..] == t[n..]
    && multiset(s) == multiset(t)
    && forall k :: 0 <= k < |t| ==> t[k] in s
  }

  /**
   The head of a heap has the earliest deadline in it, and among the items with that deadline the highest
   priority: nothing in the heap comes before its head.
   */
  lemma {:induction false} HeadIsLeast(s: seq<PendingItem>, k: nat)
    requires HeapOrdered(s) && k < |s|
    ensures !Before(s[k].Key(), s[0].Key())
    ensures s[0].deadline <= s[k].deadline
    ensures s[0].deadline == s[k].deadline ==> s[0].priority >= s[k].priority
  {
    if k > 0 {
      HeadIsLeast(s, Parent(k));
      assert InOrder(s, k);
      NotBeforeTransitive(s[0].Key(), s[Parent(k)].Key(), s[k].Key());
    }
  }

  lemma HeadIsLeastOfAll(s: seq<PendingItem>)
    requires HeapOrdered(s) && |s| > 0
    ensures forall x :: x in s ==> !Before(x.Key(), s[0].Key())
  {
    forall k | 0 <= k < |s| ensures !Before(s[k].Key(), s[0].Key()) {
      HeadIsLeast(s, k);
    }
  }

  class PendingQueue {
    var items: seq<PendingItem>

    /** Every member's index is its position, which makes the members pairwise distinct. */
    ghost predicate Indexed()
      reads this, items
    {
      forall k :: 0 <= k < |items| ==> items[k].index == k
    }

    ghost predicate Valid()
      reads this, items
    {
      Indexed() && HeapOrdered(items)
    }

    constructor ()
      ensures Valid() && items == []
    {
      items := [];
    }

    function Len(): nat
      reads this
    {
      |items|
    }

    predicate Less(i: nat, j: nat)
      requires i < |items| && j < |items|
      reads this
    {
      Before(items[i].Key(), items[j].Key())
    }

    method Swap(i: nat, j: nat)
      requires Indexed() && i < |items| && j < |items|
      modifies this, items[i], items[j]
      ensures Indexed()
      ensures items == old(items)[i := old(items[j])][j := old(items[i])]
      ensures multiset(items) == old(multiset(items))
    {
      items := items[i := items[j]][j := items[i]];
      items[i].index := i;
      items[j].index := j;
    }

    method Push(x: PendingItem)
      requires Indexed() && x !in items
      modifies this, x
      ensures Indexed() && items == old(items) + [x]
    {
      x.index := |items|;
      items := items + [x];
    }

    method Pop() returns (item: PendingItem)
      requires Indexed() && |items| > 0
      modifies this, items[|items| - 1]
      ensures Indexed() && items == old(items)[..|old(items)| - 1]
      ensures item == old(items)[|old(items)| - 1] && item.index == -1 && item !in items
    {
      var n := |items|;
      item := items[n - 1];
      item.index := -1;
      items := items[..n - 1];
    }

    method Up(j0: nat)
      requires Indexed() && j0 < |items| && OrderedExceptUp(items, j0)
      modifies this, items
      ensures Valid() && multiset(items) == old(multiset(items))
    {
      var j := j0;
      while true
        invariant 0 <= j < |items| && Indexed() && OrderedExceptUp(items, j)
        invariant multiset(items) == old(multiset(items))
        invariant forall k :: 0 <= k < |items| ==> items[k] in old(items)
        decreases j
      {
        var i := if j == 0 then 0 else (j - 1) / 2;
        if i == j || !Less(j, i) {
          break;
        }
        ghost var was := items;
        Swap(i, j);
        SwapUp(was, items, j);
        SameMembers(was, items);
        j := i;
      }
    }

    method Down(i0: nat, n: nat)
      requires Indexed() && i0 < n <= |items| && OrderedExceptDown(items, i0, n)
      modifies this, items
      ensures Indexed() && Rearranged(old(items), items, n) && HeapOrdered(items[..n])
    {
      var i := i0;
      var moving := true;
      while moving
        invariant Rearranged(old(items), items, n)
        invariant 0 <= i < n && Indexed()
        invariant if moving then OrderedExceptDown(items, i, n) else HeapOrdered(items[..n])
        decreases n - i, moving
      {
        i, moving := DownOnce(i, n);
      }
    }

    /** One turn of that loop: exchanges i with its least child, unless no child is smaller. */
    method DownOnce(i: nat, n: nat) returns (j: nat, moving: bool)
      requires Indexed() && i < n <= |items| && OrderedExceptDown(items, i, n)
      modifies this, items
      ensures Indexed() && Rearranged(old(items), items, n)
      ensures if moving then i < j < n && OrderedExceptDown(items, j, n) else j == i && HeapOrdered(items[..n])
    {
      var j1 := 2 * i + 1;
      if j1 >= n {
        StopDown(items, i, n);
        return i, false;
      }
      j := j1;
      var j2 := j1 + 1;
      if j2 < n && Less(j2, j1) {
        j := j2;
      }
      if !Less(j, i) {
        StopDown(items, i, n);
        return i, false;
      }
      Swap(i, j);
      StepDown(old(items), items, i, j, n);
      return j, true;
    }

    /** container/heap.Push: the queue gains exactly x. */
    method HeapPush(x: PendingItem)
      requires Valid() && x !in items
      modifies this, items, x
      ensures Valid()
      ensures multiset(items) == old(multiset(items)) + multiset{x}
      ensures forall y :: y in items <==> y in old(items) || y == x
    {
      Push(x);
      assert forall k :: 0 < k < |items| - 1 ==> InOrder(old(items), k) ==> InOrder(items, k);
      ghost var pushed := items;
      Up(|items| - 1);
      SameMembers(pushed, items);
    }

    /**
     container/heap.Pop: the queue loses exactly the returned item, which has the earliest deadline of all,
     and the highest priority among those.
     */
    method HeapPop() returns (item: PendingItem)
      requires Valid() && |items| > 0
      modifies this, items
      ensures Valid() && item.index == -1 && item !in items
      ensures multiset(items) + multiset{item} == old(multiset(items))
      ensures forall y :: y in old(items) <==> y in items || y == item
      ensures forall x :: x in old(items) ==>
                && item.deadline <= x.deadline
                && (item.deadline == x.deadline ==> item.priority >= x.priority)
    {
      HeadIsLeastOfAll(items);
      var n := |items| - 1;
      Swap(0, n);
      ghost var swapped := items;
      HeadExchanged(old(items), swapped, n);
      if n > 0 {
        Down(0, n);
      }
      HeadLeaves(old(items), swapped, items, n);
      item := Pop();
    }
  }

  // ---------- The priority queue that the heap implements ----------

  datatype Request = Insert(item: PendingItem) | TakeFirst

  /**
   Reference definition, on multisets: serving `script` from `bag` takes in `pushed`, yields `popped`
   and leaves `rest`. An Insert takes effect when its item is not queued at that moment, whether or not
   it was queued before; each TakeFirst on a non-empty bag takes out an element with the earliest deadline
   and, among those, the highest priority.
   */
  ghost predicate Serves(bag: multiset<PendingItem>, script: seq<Request>, pushed: seq<PendingItem>,
                         popped: seq<PendingItem>, rest: multiset<PendingItem>)
    decreases |script|
  {
    if script == [] then pushed == [] && popped == [] && rest == bag
    else
      match script[0]
      case Insert(x) =>
        if x in bag then Serves(bag, script[1..], pushed, popped, rest)
        else pushed != [] && pushed[0] == x && Serves(bag + multiset{x}, script[1..], pushed[1..], popped, rest)
      case TakeFirst =>
        if bag == multiset{} then Serves(bag, script[1..], pushed, popped, rest)
        else
          && popped != []
          && popped[0] in bag
          && (forall x :: x in bag ==>
                popped[0].deadline <= x.deadline
                && (popped[0].deadline == x.deadline ==> popped[0].priority >= x.priority))
          && Serves(bag - multiset{popped[0]}, script[1..], pushed, popped[1..], rest)
  }

  function Inserted(script: seq<Request>): set<PendingItem>
    decreases |script|
  {
    if script == [] then {}
    else if script[0].Insert? then {script[0].item} + Inserted(script[1..])
    else Inserted(script[1..])
  }

  /** Nothing is lost or invented: what came out and what remains is what was there and what went in. */
  lemma {:induction false} ServesConserves(bag: multiset<PendingItem>, script: seq<Request>,
                                           pushed: seq<PendingItem>, popped: seq<PendingItem>,
                                           rest: multiset<PendingItem>)
    requires Serves(bag, script, pushed, popped, rest)
    ensures rest + multiset(popped) == bag + multiset(pushed)
    decreases |script|
  {
    if script != [] {
      match script[0]
      case Insert(x) =>
        if x in bag {
          ServesConserves(bag, script[1..], pushed, popped, rest);
        } else {
          ServesConserves(bag + multiset{x}, script[1..], pushed[1..], popped, rest);
          assert pushed == [x] + pushed[1..];
        }
      case TakeFirst =>
        if bag == multiset{} {
          ServesConserves(bag, script[1..], pushed, popped, rest);
        } else {
          ServesConserves(bag - multiset{popped[0]}, script[1..], pushed, popped[1..], rest);
          assert popped == [popped[0]] + popped[1..];
          PutBack(rest, multiset(popped[1..]), bag, popped[0], multiset(pushed));
        }
    }
  }

  lemma PutBack(rest: multiset<PendingItem>, tail: multiset<PendingItem>, bag: multiset<PendingItem>,
                first: PendingItem, pushed: multiset<PendingItem>)
    requires first in bag && rest + tail == bag - multiset{first} + pushed
    ensures rest + (multiset{first} + tail) == bag + pushed
  {
    assert bag == bag - multiset{first} + multiset{first};
    assert rest + (multiset{first} + tail) == (rest + tail) + multiset{first};
    assert bag - multiset{first} + pushed + multiset{first} == bag - multiset{first} + multiset{first} + pushed;
  }

  lemma ServesFirst(left: multiset<PendingItem>, first: PendingItem, script: seq<Request>,
                    pushed: seq<PendingItem>, later: seq<PendingItem>, rest: multiset<PendingItem>)
    requires script != [] && script[0].TakeFirst? && Serves(left, script[1..], pushed, later, rest)
    requires forall x :: x in left ==>
               first.deadline <= x.deadline && (first.deadline == x.deadline ==> first.priority >= x.priority)
    ensures Serves(left + multiset{first}, script, pushed, [first] + later, rest)
  {
    var bag := left + multiset{first};
    assert bag - multiset{first} == left;
    assert ([first] + later)[1..] == later;
  }

  lemma ServesInsert(bag: multiset<PendingItem>, script: seq<Request>, later: seq<PendingItem>,
                     popped: seq<PendingItem>, rest: multiset<PendingItem>)
    requires script != [] && script[0].Insert? && script[0].item !in bag
    requires Serves(bag + multiset{script[0].item}, script[1..], later, popped, rest)
    ensures Serves(bag, script, [script[0].item] + later, popped, rest)
  {
    assert ([script[0].item] + later)[1..] == later;
  }

  /**
   Any sequence of pushes of items that are not queued and of pops refines the reference queue; an item
   may come back after it was popped, as a requeued request does. Every item that was ever queued and is
   not queued at the end carries index -1.
   */
  method Replay(queue: PendingQueue, script: seq<Request>)
    returns (pushed: seq<PendingItem>, popped: seq<PendingItem>)
    requires queue.Valid()
    modifies queue, queue.items, Inserted(script)
    ensures queue.Valid()
    ensures Serves(old(multiset(queue.items)), script, pushed, popped, multiset(queue.items))
    ensures forall x :: x in queue.items ==> x in old(queue.items) || x in Inserted(script)
    ensures forall x :: (x in old(queue.items) || x in Inserted(script)) && x !in queue.items ==> x.index == -1
    decreases |script|
  {
    if script == [] {
      return [], [];
    }
    match script[0]
    case Insert(x) =>
      if x in queue.items {
        pushed, popped := Replay(queue, script[1..]);
      } else {
        var later;
        queue.HeapPush(x);
        assert forall k :: 0 <= k < |queue.items| ==> queue.items[k] in old(queue.items) || queue.items[k] == x;
        later, popped := Replay(queue, script[1..]);
        pushed := [x] + later;
        ServesInsert(old(multiset(queue.items)), script, later, popped, multiset(queue.items));
      }
    case TakeFirst =>
      if queue.Len() == 0 {
        pushed, popped := Replay(queue, script[1..]);
      } else {
        var later;
        var first := queue.HeapPop();
        ghost var left := multiset(queue.items);
        assert forall k :: 0 <= k < |queue.items| ==> queue.items[k] in old(queue.items);
        pushed, later := Replay(queue, script[1..]);
        popped := [first] + later;
        ServesFirst(left, first, script, pushed, later, multiset(queue.items));
        assert old(multiset(queue.items)) == left + multiset{first};
      }
  }

  lemma SameMembers(s: seq<PendingItem>, t: seq<PendingItem>)
    requires multiset(s) == multiset(t)
    ensures forall x :: x in s <==> x in t
  {
    forall x ensures x in s <==> x in t {
      assert x in s <==> x in multiset(s);
      assert x in t <==> x in multiset(t);
    }
  }

  /** The first move of container/heap.Pop: head and last change places, and only position 0 may be too large. */
  lemma HeadExchanged(s: seq<PendingItem>, t: seq<PendingItem>, n: nat)
    requires HeapOrdered(s) && |s| == n + 1 && t == s[0 := s[n]][n := s[0]]
    ensures OrderedExceptDown(t, 0, n) && Rearranged(t, t, n)
    ensures multiset(t) == multiset(s)
    ensures n == 0 ==> HeapOrdered(t[..n])
  {
    forall k | 0 < k < n && Parent(k) != 0 ensures InOrder(t, k) {
      assert InOrder(s, k);
    }
  }

  /** Its last move: the old head, parked in the last position, is cut off. */
  lemma HeadLeaves(s: seq<PendingItem>, t: seq<PendingItem>, u: seq<PendingItem>, n: nat)
    requires |s| == n + 1 && t == s[0 := s[n]][n := s[0]] && Rearranged(t, u, n)
    ensures u[n] == s[0] && |u| == n + 1
    ensures multiset(u[..n]) + multiset{s[0]} == multiset(s)
    ensures forall y :: y in s <==> y in u[..n] || y == s[0]
  {
    assert u[n] == u[n..][0] == t[n..][0] == s[0];
    assert u == u[..n] + [s[0]];
    SameMembers(s, u);
  }

  lemma SwapUp(s: seq<PendingItem>, t: seq<PendingItem>, j: nat)
    requires 0 < j < |s| && OrderedExceptUp(s, j)
    requires Before(s[j].Key(), s[Parent(j)].Key())
    requires t == s[Parent(j) := s[j]][j := s[Parent(j)]]
    ensures OrderedExceptUp(t, Parent(j))
  {
    var i := Parent(j);
    forall k | 0 < k < |t| && k != i ensures InOrder(t, k) {
      if k != j {
        assert InOrder(s, k);
      }
    }
    forall k | 0 < k < |t| && 0 < i && Parent(k) == i ensures !Before(t[k].Key(), t[Parent(i)].Key()) {
      assert InOrder(s, i);
      if k != j {
        assert InOrder(s, k);
      }
    }
  }

  /** One iteration of the loop in Down: i and its least child j change places. */
  lemma StepDown(s: seq<PendingItem>, t: seq<PendingItem>, i: nat, j: nat, n: nat)
    requires n <= |s| && OrderedExceptDown(s, i, n)
    requires j < n && (j == 2 * i + 1 || (j == 2 * i + 2 && Before(s[j].Key(), s[j - 1].Key())))
    requires j == 2 * i + 1 && j + 1 < n ==> !Before(s[j + 1].Key(), s[j].Key())
    requires Before(s[j].Key(), s[i].Key())
    requires t == s[i := s[j]][j := s[i]]
    ensures OrderedExceptDown(t, j, n) && Rearranged(s, t, n)
  {
    forall k | 0 < k < n && Parent(k) == i ensures !Before(s[k].Key(), s[j].Key()) {
      assert k == 2 * i + 1 || k == 2 * i + 2;
    }
    SwapDown(s, t, i, j, n);
    ExchangeRearranges(s, t, i, j, n);
  }

  lemma ExchangeRearranges(s: seq<PendingItem>, t: seq<PendingItem>, i: nat, j: nat, n: nat)
    requires i < n && j < n <= |s| && t == s[i := s[j]][j := s[i]]
    ensures Rearranged(s, t, n)
  {
  }

  /** The loop in Down stops where i is not larger than any child. */
  lemma StopDown(s: seq<PendingItem>, i: nat, n: nat)
    requires i < n <= |s| && OrderedExceptDown(s, i, n)
    requires 2 * i + 1 < n ==> !Before(s[2 * i + 1].Key(), s[i].Key())
    requires 2 * i + 2 < n ==> !Before(s[2 * i + 2].Key(), s[i].Key())
    ensures HeapOrdered(s[..n])
  {
    forall k | 0 < k < n ensures InOrder(s[..n], k) {
      if Parent(k) == i {
        assert k == 2 * i + 1 || k == 2 * i + 2;
      } else {
        assert InOrder(s, k);
      }
    }
  }

  lemma SwapDown(s: seq<PendingItem>, t: seq<PendingItem>, i: nat, j: nat, n: nat)
    requires i < j < n <= |s| && OrderedExceptDown(s, i, n) && Parent(j) == i
    requires Before(s[j].Key(), s[i].Key())
    requires forall k :: 0 < k < n && Parent(k) == i ==> !Before(s[k].Key(), s[j].Key())
    requires t == s[i := s[j]][j := s[i]]
    ensures OrderedExceptDown(t, j, n)
  {
    forall k | 0 < k < n && Parent(k) != j ensures InOrder(t, k) {
      if Parent(k) != i {
        assert InOrder(s, k);
      }
    }
    forall k | 0 < k < n && Parent(k) == j ensures !Before(t[k].Key(), t[Parent(j)].Key()) {
      assert InOrder(s, k);
    }
  }
}
