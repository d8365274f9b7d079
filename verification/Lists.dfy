/** lib/kernel/list.c: an intrusive doubly linked list between two fixed
    sentinels. The row of a list is its head, its elements and its tail. */
module Lists {
  import opened Common

  class Elem {
    var prev: Elem?
    var next: Elem?
  }

  /** Each neighbour in the row points at the other. */
  ghost predicate Linked(row: seq<Elem>)
    reads row
  {
    && (forall i :: 0 <= i < |row| - 1 ==> row[i].next == row[i + 1])
    && (forall i :: 1 <= i < |row| ==> row[i].prev == row[i - 1])
  }

  lemma InsertNoDup(row: seq<Elem>, k: nat, elem: Elem)
    requires NoDup(row) && k <= |row| && elem !in row
    ensures NoDup(row[..k] + [elem] + row[k..])
  {
  }

  lemma RemoveNoDup(row: seq<Elem>, k: nat)
    requires NoDup(row) && k < |row|
    ensures NoDup(row[..k] + row[k + 1..]) && row[k] !in row[..k] + row[k + 1..]
  {
  }

  /** list_insert_before: elements of other lists, and of this one but for the two neighbours, are not written to. */
  method InsertBefore(before: Elem, elem: Elem, ghost row: seq<Elem>, ghost k: nat)
    requires Linked(row) && NoDup(row) && 1 <= k < |row| && row[k] == before && elem !in row
    modifies before, row[k - 1], elem
    ensures Linked(row[..k] + [elem] + row[k..]) && NoDup(row[..k] + [elem] + row[k..])
  {
    InsertNoDup(row, k, elem);
    assert before.prev == row[k - 1];
    before.prev.next := elem;
    elem.prev := before.prev;
    elem.next := before;
    before.prev := elem;
    ghost var after := row[..k] + [elem] + row[k..];
    assert forall i :: 0 <= i < k ==> after[i] == row[i];
    assert after[k] == elem;
    assert forall i :: k < i < |after| ==> after[i] == row[i - 1];
  }

  /** list_remove: the element is bypassed; its own pointers are left as they were. */
  method Remove(pelem: Elem, ghost row: seq<Elem>, ghost k: nat)
    requires Linked(row) && NoDup(row) && 1 <= k < |row| - 1 && row[k] == pelem
    modifies row[k - 1], row[k + 1]
    ensures Linked(row[..k] + row[k + 1..]) && NoDup(row[..k] + row[k + 1..])
  {
    RemoveNoDup(row, k);
    assert pelem.prev == row[k - 1] && pelem.next == row[k + 1];
    pelem.prev.next := pelem.next;
    pelem.next.prev := pelem.prev;
    ghost var after := row[..k] + row[k + 1..];
    assert forall i :: 0 <= i < k ==> after[i] == row[i];
    assert forall i :: k <= i < |after| ==> after[i] == row[i + 1];
  }

  class List {
    const head: Elem
    const tail: Elem
    ghost var s: seq<Elem>      // the elements, first to last

    ghost function Row(): seq<Elem>
      reads this
    {
      [head] + s + [tail]
    }

    ghost predicate Valid()
      reads this, Row()
    {
      Linked(Row()) && NoDup(Row())
    }

    constructor ()
      ensures Valid() && s == [] && fresh(head) && fresh(tail)
    {
      var h, t := new Elem, new Elem;
      h.prev, h.next, t.prev, t.next := null, t, h, null;
      head, tail, s := h, t, [];
    }

    method Push(elem: Elem)
      requires Valid() && elem !in Row()
      modifies this, Row(), elem
      ensures Valid() && s == [elem] + old(s)
    {
      ghost var row := Row();
      assert row[0] == head && row[1] in row;
      InsertBefore(head.next, elem, row, 1);
      s := [elem] + s;
      assert Row() == row[..1] + [elem] + row[1..];
    }

    method Append(elem: Elem)
      requires Valid() && elem !in Row()
      modifies this, Row(), elem
      ensures Valid() && s == old(s) + [elem]
    {
      ghost var row := Row();
      assert row[|row| - 1] == tail && row[|row| - 2] in row;
      InsertBefore(tail, elem, row, |row| - 1);
      s := s + [elem];
      assert Row() == row[..|row| - 1] + [elem] + row[|row| - 1..];
    }

    /** list_remove of an element of this list. */
    method Unlink(elem: Elem, ghost k: nat)
      requires Valid() && k < |s| && s[k] == elem
      modifies this, Row()
      ensures Valid() && s == old(s)[..k] + old(s)[k + 1..] && elem !in s
    {
      ghost var row := Row();
      assert row[k + 1] == elem;
      Remove(elem, row, k + 1);
      s := s[..k] + s[k + 1..];
      assert Row() == row[..k + 1] + row[k + 2..];
      RemoveNoDup(row, k + 1);
    }

    /** list_pop follows head.next without looking, so the list must not be empty. */
    method Pop() returns (elem: Elem)
      requires Valid() && s != []
      modifies this, Row()
      ensures Valid() && elem == old(s)[0] && s == old(s)[1..]
    {
      assert Row()[0] == head && Row()[1] == s[0];
      elem := head.next;
      Unlink(elem, 0);
    }

    method Empty() returns (b: bool)
      requires Valid()
      ensures b <==> s == []
    {
      assert Row()[0] == head && Row()[1] == if s == [] then tail else s[0];
      b := head.next == tail;
      assert s != [] ==> Row()[1] != Row()[|s| + 1];
    }

    method Find(elem: Elem) returns (b: bool)
      requires Valid()
      ensures b <==> elem in s
    {
      var e := head.next;
      ghost var k := 0;
      ghost var row := Row();
      assert row[0] == head;
      while e != tail
        invariant k <= |s| && e == row[k + 1] && elem !in s[..k]
        decreases |s| - k
      {
        assert k < |s| && e == s[k];
        if e == elem {
          return true;
        }
        assert s[..k + 1] == s[..k] + [s[k]];
        e := e.next;
        k := k + 1;
      }
      assert row[|s| + 1] == tail;
      assert s[..k] == s;
      return false;
    }

    /** list_traversal: the first element the callback accepts. */
    method Traverse(func: Elem -> bool) returns (r: Elem?)
      requires Valid()
      ensures r == null ==> forall k :: 0 <= k < |s| ==> !func(s[k])
      ensures r != null ==> exists k :: 0 <= k < |s| && r == s[k] && func(s[k]) && forall i :: 0 <= i < k ==> !func(s[i])
    {
      var e := head.next;
      ghost var k := 0;
      ghost var row := Row();
      assert row[0] == head;
      while e != tail
        invariant k <= |s| && e == row[k + 1] && forall i :: 0 <= i < k ==> !func(s[i])
        decreases |s| - k
      {
        assert k < |s| && e == s[k];
        if func(e) {
          return e;
        }
        e := e.next;
        k := k + 1;
      }
      assert row[|s| + 1] == tail;
      return null;
    }

    method Len() returns (n: nat)
      requires Valid()
      ensures n == |s|
    {
      var e := head.next;
      ghost var row := Row();
      assert row[0] == head;
      n := 0;
      while e != tail
        invariant n <= |s| && e == row[n + 1]
        decreases |s| - n
      {
        assert n < |s|;
        n := n + 1;
        e := e.next;
      }
      assert row[|s| + 1] == tail;
    }
  }
}
