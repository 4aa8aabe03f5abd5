/** The generic linked-list exercise: a singly linked list that pushes and
    pops at its head.  The ghost sequence Contents abstracts the node chain,
    head first. */
module GenericDataStructure {
  import Errors

  class Node<T> {
    var data: T
    var next: Node?<T>
    ghost var Tail: seq<T>        // data of this node and of every node after it
    ghost var Repr: set<object>   // this node and every node after it

    ghost predicate Valid()
      reads this, Repr
      decreases Repr
    {
      && this in Repr
      && (next == null ==> Tail == [data])
      && (next != null ==>
            && next in Repr && next.Repr <= Repr && this !in next.Repr
            && Tail == [data] + next.Tail
            && next.Valid())
    }

    constructor (data: T, next: Node?<T>)
      requires next != null ==> next.Valid()
      ensures Valid() && this.data == data && this.next == next
      ensures next == null ==> Tail == [data] && Repr == {this}
      ensures next != null ==> Tail == [data] + next.Tail && Repr == {this} + next.Repr
    {
      this.data := data;
      this.next := next;
      if next == null {
        Tail := [data];
        Repr := {this};
      } else {
        Tail := [data] + next.Tail;
        Repr := {this} + next.Repr;
      }
    }
  }

  class LinkedList<T(==)> {
    var head: Node?<T>
    ghost var Contents: seq<T>
    ghost var Repr: set<object>

    ghost predicate Valid()
      reads this, Repr
    {
      && this in Repr
      && (head == null ==> Contents == [])
      && (head != null ==>
            && head in Repr && head.Repr <= Repr && this !in head.Repr
            && head.Valid() && Contents == head.Tail)
    }

    /** A new list is empty. */
    constructor ()
      ensures Valid() && fresh(Repr) && Contents == []
    {
      head := null;
      Contents := [];
      Repr := {this};
    }

    /** add(data): data becomes the head; the rest is unchanged. */
    method Add(data: T)
      requires Valid()
      modifies this
      ensures Valid() && fresh(Repr - old(Repr))
      ensures Contents == [data] + old(Contents)
    {
      var newNode := new Node(data, head);
      head := newNode;
      Repr := Repr + newNode.Repr;
      Contents := [data] + Contents;
    }

    /** remove(): pops the head, or throws EmptyListException on an empty list. */
    method Remove() returns (outcome: Errors.Outcome)
      requires Valid()
      modifies this
      ensures Valid() && Repr <= old(Repr)
      ensures old(Contents) == [] ==> outcome == Errors.Thrown(Errors.EmptyListException) && Contents == []
      ensures old(Contents) != [] ==> outcome == Errors.Done && Contents == old(Contents)[1..]
    {
      if head == null {
        return Errors.Thrown(Errors.EmptyListException);
      }
      head := head.next;
      Contents := Contents[1..];
      outcome := Errors.Done;
    }

    /** search(data): walks the nodes from the head until data is found. */
    method Search(data: T) returns (found: bool)
      requires Valid()
      ensures found <==> data in Contents
    {
      var current := head;
      ghost var i := 0;
      while current != null
        invariant 0 <= i <= |Contents|
        invariant current == null <==> i == |Contents|
        invariant current != null ==> current in Repr && current.Repr <= Repr && current.Valid() && current.Tail == Contents[i..]
        invariant data !in Contents[..i]
        decreases |Contents| - i
      {
        if current.data == data {
          assert Contents[i] == data;
          return true;
        }
        assert Contents[..i + 1] == Contents[..i] + [current.data];
        current := current.next;
        i := i + 1;
      }
      assert Contents[..i] == Contents;
      return false;
    }

    /** printList(): the data in the order the list prints it, head first. */
    method PrintList() returns (printed: seq<T>)
      requires Valid()
      ensures printed == Contents
    {
      printed := [];
      var current := head;
      while current != null
        invariant current == null ==> printed == Contents
        invariant current != null ==> current in Repr && current.Repr <= Repr && current.Valid() && printed + current.Tail == Contents
        decreases if current == null then {} else current.Repr
      {
        printed := printed + [current.data];
        current := current.next;
      }
    }
  }

  /** add(x) followed by remove() gives back the list it started from. */
  method AddThenRemove<T(==)>(list: LinkedList<T>, x: T)
    requires list.Valid()
    modifies list
    ensures list.Valid() && list.Contents == old(list.Contents)
  {
    list.Add(x);
    var outcome := list.Remove();
    assert outcome == Errors.Done;
  }

  /** The run of main: 10, 20, 30 added; printed as 30 20 10; one removal
      leaves 20 10, where 20 is found; the fourth removal throws. */
  method Demo() returns (first: seq<int>, second: seq<int>, found: bool, thrown: Errors.Outcome)
    ensures first == [30, 20, 10]
    ensures second == [20, 10]
    ensures found
    ensures thrown == Errors.Thrown(Errors.EmptyListException)
  {
    var list := new LinkedList<int>();
    list.Add(10);
    list.Add(20);
    list.Add(30);
    first := list.PrintList();
    var _ := list.Remove();
    second := list.PrintList();
    found := list.Search(20);
    var _ := list.Remove();
    var _ := list.Remove();
    thrown := list.Remove();
  }
}
