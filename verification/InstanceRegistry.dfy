// registry<T>: the intrusive doubly linked list of the live instances of a
// potential class, and their number.
module InstanceRegistry {

  // The registry part of an instance.
  class Instance {
    var prev: Instance?
    var next: Instance?

    constructor ()
      ensures prev == null && next == null
    {
      prev, next := null, null;
    }
  }

  datatype Operation = Default | Copy(other: nat) | Destroy(which: nat)

  // The static members.
  class Registry {
    var head: Instance?
    var count: nat
    // The live instances as the list has them.
    ghost var live: seq<Instance>

    constructor ()
      ensures Valid() && live == []
    {
      head, count := null, 0;
      live := [];
    }

    ghost predicate Valid()
      reads this, live
    {
      && Distinct(live)
      && head == At(live, 0) && count == |live|
      && (forall i {:trigger live[i].next} :: 0 <= i < |live| ==> live[i].next == At(live, i + 1))
      && (forall i {:trigger live[i].prev} :: 0 <= i < |live| ==> live[i].prev == At(live, i - 1))
    }

    // The default constructor.
    method Construct() returns (x: Instance)
      requires Valid()
      modifies this, live
      ensures Valid() && fresh(x) && live == [x] + old(live)
    {
      x := new Instance();
      count := count + 1;
      x.prev := null;
      x.next := head;
      head := x;
      if x.next != null {
        x.next.prev := head;
      }
      live := [x] + live;
      assert forall i :: 0 < i < |live| ==> live[i] == old(live)[i - 1];
    }

    // The copy constructor: a new instance of its own place in the list.
    method CopyConstruct(other: Instance) returns (x: Instance)
      requires Valid() && other in live
      modifies this, live
      ensures Valid() && fresh(x) && live == [x] + old(live)
    {
      x := Construct();
    }

    // The destructor.
    method Destruct(x: Instance, ghost at: nat)
      requires Valid() && at < |live| && live[at] == x
      modifies this, live
      ensures Valid() && live == Without(old(live), at)
    {
      count := count - 1;
      if x.prev != null {
        x.prev.next := x.next;
      }
      if x.next != null {
        x.next.prev := x.prev;
      }
      if head == x {
        head := x.next;
      }
      StillLinked(live, at, head);
      live := Without(live, at);
    }

    // Following next from head ends, and visits each live instance once.
    method Walk() returns (visited: seq<Instance>)
      requires Valid()
      ensures visited == live && |visited| == count
      ensures Distinct(visited)
    {
      visited := [];
      var p := head;
      while p != null
        invariant |visited| <= |live| && visited == live[..|visited|] && p == At(live, |visited|)
        decreases |live| - |visited|
      {
        visited := visited + [p];
        p := p.next;
      }
    }

    // Any sequence of constructions, copies and destructions, in any order.
    // An operation on an instance that is not alive is undefined and skipped.
    method Run(operations: seq<Operation>) returns (created: seq<Instance>, destroyed: set<Instance>)
      requires Valid() && live == []
      modifies this
      ensures Valid() && live == Alive(created, destroyed)
      ensures forall x :: x in live <==> x in created && x !in destroyed
    {
      created, destroyed := [], {};
      for i := 0 to |operations|
        invariant Valid() && live == Alive(created, destroyed) && fresh(live)
        invariant forall x :: x in created ==> fresh(x)
        invariant Distinct(created)
        invariant forall x :: x in destroyed ==> x in created
      {
        hide At, Without;
        AliveMeans(created, destroyed);
        match operations[i] {
          case Default =>
            var x := Construct();
            created := created + [x];
          case Copy(other) =>
            if other < |created| && created[other] !in destroyed {
              var x := CopyConstruct(created[other]);
              created := created + [x];
            }
          case Destroy(which) =>
            if which < |created| && created[which] !in destroyed {
              ghost var at := Position(created, destroyed, which);
              Destruct(created[which], at);
              destroyed := destroyed + {created[which]};
            }
        }
      }
      AliveMeans(created, destroyed);
    }
  }

  ghost predicate Distinct(s: seq<Instance>) {
    forall i, j :: 0 <= i < j < |s| ==> s[i] != s[j]
  }

  lemma DistinctFront(s: seq<Instance>, i: nat)
    requires Distinct(s) && i < |s| - 1
    ensures Distinct(s[..|s| - 1]) && s[..|s| - 1][i] == s[i] != s[|s| - 1]
  {
  }

  // The instance at position i, or null outside the list.
  function At(live: seq<Instance>, i: int): Instance? {
    if 0 <= i < |live| then live[i] else null
  }

  function Without(live: seq<Instance>, at: nat): (r: seq<Instance>)
    requires at < |live|
    ensures |r| == |live| - 1
    ensures forall i {:trigger r[i]} :: 0 <= i < |r| ==> r[i] == live[if i < at then i else i + 1]
  {
    live[..at] + live[at + 1..]
  }

  lemma WithoutAt(live: seq<Instance>, at: nat)
    requires at < |live|
    ensures forall i :: At(Without(live, at), i) == At(live, if i < at then i else i + 1)
  {
  }

  // Neighbours that pass by position `at` link the list without it.
  lemma StillLinked(was: seq<Instance>, at: nat, head: Instance?)
    requires at < |was| && Distinct(was)
    requires head == At(was, if at == 0 then 1 else 0)
    requires forall i {:trigger was[i].next} :: 0 <= i < |was| && i != at ==>
      was[i].next == At(was, if i + 1 == at then at + 1 else i + 1)
    requires forall i {:trigger was[i].prev} :: 0 <= i < |was| && i != at ==>
      was[i].prev == At(was, if i - 1 == at then at - 1 else i - 1)
    ensures var live := Without(was, at);
      && head == At(live, 0)
      && Distinct(live)
      && (forall i {:trigger live[i].next} :: 0 <= i < |live| ==> live[i].next == At(live, i + 1))
      && (forall i {:trigger live[i].prev} :: 0 <= i < |live| ==> live[i].prev == At(live, i - 1))
  {
    WithoutAt(was, at);
    var live := Without(was, at);
    forall i | 0 <= i < |live|
      ensures live[i].next == At(live, i + 1) && live[i].prev == At(live, i - 1)
    {
      hide At;
      assert live[i] == was[if i < at then i else i + 1];
    }
  }

  // The instances still alive, newest first.
  ghost function Alive(created: seq<Instance>, destroyed: set<Instance>): seq<Instance> {
    if created == [] then []
    else
      var last := created[|created| - 1];
      (if last in destroyed then [] else [last]) + Alive(created[..|created| - 1], destroyed)
  }

  lemma {:induction false} AliveMeans(created: seq<Instance>, destroyed: set<Instance>)
    ensures forall x :: x in Alive(created, destroyed) <==> x in created && x !in destroyed
  {
    if created != [] {
      var front, last := created[..|created| - 1], created[|created| - 1];
      AliveMeans(front, destroyed);
      assert created == front + [last];
    }
  }

  lemma {:induction false} DestroyOther(created: seq<Instance>, destroyed: set<Instance>, x: Instance)
    requires x !in created
    ensures Alive(created, destroyed + {x}) == Alive(created, destroyed)
  {
    if created != [] {
      DestroyOther(created[..|created| - 1], destroyed, x);
    }
  }

  lemma NotInFront(s: seq<Instance>)
    requires Distinct(s) && s != []
    ensures s[|s| - 1] !in s[..|s| - 1]
  {
  }

  // Where a live instance is in the list, and the list without it.
  lemma {:induction false} Position(created: seq<Instance>, destroyed: set<Instance>, which: nat) returns (at: nat)
    requires Distinct(created)
    requires which < |created| && created[which] !in destroyed
    ensures var live := Alive(created, destroyed);
      at < |live| && live[at] == created[which]
      && Alive(created, destroyed + {created[which]}) == Without(live, at)
  {
    var front, last := created[..|created| - 1], created[|created| - 1];
    var x := created[which];
    var older := Alive(front, destroyed);
    var after := destroyed + {x};
    assert Alive(created, destroyed) == (if last in destroyed then [] else [last]) + older;
    assert Alive(created, after) == (if last in after then [] else [last]) + Alive(front, after);
    hide Alive, Without, Distinct;
    if which == |created| - 1 {
      at := 0;
      NotInFront(created);
      DestroyOther(front, destroyed, x);
      First(last, older);
    } else {
      DistinctFront(created, which);
      var k := Position(front, destroyed, which);
      AfterFirst(last, older, k);
      at := if last in destroyed then k else k + 1;
    }
  }

  lemma First(a: Instance, s: seq<Instance>)
    ensures Without([a] + s, 0) == s
  {
    assert ([a] + s)[1..] == s;
  }

  lemma AfterFirst(a: Instance, s: seq<Instance>, k: nat)
    requires k < |s|
    ensures Without([a] + s, k + 1) == [a] + Without(s, k)
  {
    assert ([a] + s)[..k + 1] == [a] + s[..k];
    assert ([a] + s)[k + 2..] == s[k + 1..];
  }

  // next and prev are inverse to each other on a valid list, which has no
  // cycle: an instance is never reached again from itself.
  lemma LinksAreInverse(r: Registry, x: Instance)
    requires r.Valid() && x in r.live
    ensures x.next != null ==> x.next in r.live && x.next.prev == x && x.next != x
    ensures x.prev != null ==> x.prev in r.live && x.prev.next == x && x.prev != x
  {
    var i :| 0 <= i < |r.live| && r.live[i] == x;
    assert i + 1 < |r.live| ==> r.live[i + 1].prev == At(r.live, i);
    assert i > 0 ==> r.live[i - 1].next == At(r.live, i);
  }
}
