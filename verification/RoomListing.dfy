/** The order in which rooms are listed (app_main.cpp). */
module RoomListing {
  import opened Options
  import opened Ascii

  // A C string without the zero byte at its end.
  type Char = c: Byte | c != 0 witness 1

  type Text = seq<Char>

  // A room's number is one byte, and its name may be missing.
  datatype Room = Room(id: nat, name: Option<Text>, targetTemperature: int)

  // The C library's comparison ignoring case.
  function Strcasecmp(a: Text, b: Text): int {
    if a == [] && b == [] then 0
    else if a == [] then 0 - (Lower(b[0]) as int)
    else if b == [] then Lower(a[0])
    else if Lower(a[0]) != Lower(b[0]) then Lower(a[0]) as int - Lower(b[0]) as int
    else Strcasecmp(a[1..], b[1..])
  }

  function NameOf(r: Room): Text {
    if r.name.Some? then r.name.value else []
  }

  function CompareRoomsByName(a: Room, b: Room): int {
    var byName := Strcasecmp(NameOf(a), NameOf(b));
    if byName != 0 then byName else a.id - b.id
  }

  // -------------------------------------------------------------------------
  // What the order is
  // -------------------------------------------------------------------------

  // Dictionary order: at the first place they differ `a` ends or has the smaller character.
  ghost predicate Precedes(a: seq<Byte>, b: seq<Byte>) {
    exists k :: 0 <= k <= |a| && DiffersAt(a, b, k)
  }

  predicate DiffersAt(a: seq<Byte>, b: seq<Byte>, k: nat)
    requires k <= |a|
  {
    k < |b| && a[..k] == b[..k] && (k == |a| || a[k] < b[k])
  }

  lemma {:induction false} StrcasecmpMeans(a: Text, b: Text)
    ensures Strcasecmp(a, b) < 0 <==> Precedes(Folded(a), Folded(b))
    ensures Strcasecmp(a, b) == 0 <==> Folded(a) == Folded(b)
    ensures Strcasecmp(a, b) > 0 <==> Precedes(Folded(b), Folded(a))
  {
    var x, y := Folded(a), Folded(b);
    if a == [] || b == [] || Lower(a[0]) != Lower(b[0]) {
      FirstDiffers(x, y);
      FirstDiffers(y, x);
    } else {
      StrcasecmpMeans(a[1..], b[1..]);
      assert Folded(a[1..]) == x[1..] && Folded(b[1..]) == y[1..];
      assert x == [x[0]] + x[1..] && y == [x[0]] + y[1..];
      PrecedesTail(x, y);
      PrecedesTail(y, x);
    }
  }

  lemma FirstDiffers(x: seq<Byte>, y: seq<Byte>)
    requires x == [] || y == [] || x[0] != y[0]
    ensures Precedes(x, y) <==> y != [] && (x == [] || x[0] < y[0])
  {
    if y != [] && (x == [] || x[0] < y[0]) {
      assert DiffersAt(x, y, 0);
    }
    forall k | 0 < k <= |x| && k < |y| ensures x[..k] != y[..k] {
      assert x[..k][0] == x[0] && y[..k][0] == y[0];
    }
  }

  lemma PrecedesTail(x: seq<Byte>, y: seq<Byte>)
    requires x != [] && y != [] && x[0] == y[0]
    ensures Precedes(x, y) <==> Precedes(x[1..], y[1..])
  {
    if Precedes(x, y) {
      var k :| 0 <= k <= |x| && DiffersAt(x, y, k);
      assert k > 0;
      assert x[1..][..k - 1] == x[..k][1..] && y[1..][..k - 1] == y[..k][1..];
      assert DiffersAt(x[1..], y[1..], k - 1);
    }
    if Precedes(x[1..], y[1..]) {
      var k :| 0 <= k <= |x[1..]| && DiffersAt(x[1..], y[1..], k);
      assert x[..k + 1] == [x[0]] + x[1..][..k] && y[..k + 1] == [y[0]] + y[1..][..k];
      assert DiffersAt(x, y, k + 1);
    }
  }

  // Rooms are in order of their names ignoring case, then of their numbers.
  ghost predicate ListedBefore(a: Room, b: Room) {
    var x, y := Folded(NameOf(a)), Folded(NameOf(b));
    Precedes(x, y) || (x == y && a.id < b.id)
  }

  lemma ComparatorMeans(a: Room, b: Room)
    ensures CompareRoomsByName(a, b) < 0 <==> ListedBefore(a, b)
    ensures CompareRoomsByName(a, b) > 0 <==> ListedBefore(b, a)
    ensures CompareRoomsByName(a, b) == 0 <==> Folded(NameOf(a)) == Folded(NameOf(b)) && a.id == b.id
  {
    StrcasecmpMeans(NameOf(a), NameOf(b));
    StrcasecmpMeans(NameOf(b), NameOf(a));
    if Folded(NameOf(a)) == Folded(NameOf(b)) {
      assert !Precedes(Folded(NameOf(a)), Folded(NameOf(b)));
    }
  }

  lemma {:induction false} StrcasecmpTransitive(a: Text, b: Text, c: Text)
    requires Strcasecmp(a, b) <= 0 && Strcasecmp(b, c) <= 0
    ensures Strcasecmp(a, c) <= 0
    ensures Strcasecmp(a, c) == 0 ==> Strcasecmp(a, b) == 0 && Strcasecmp(b, c) == 0
  {
    if a != [] && b != [] && c != [] && Lower(a[0]) == Lower(b[0]) == Lower(c[0]) {
      StrcasecmpTransitive(a[1..], b[1..], c[1..]);
    }
  }

  // A strict total order on rooms with distinct numbers.
  lemma ComparatorIsTotalOrder(a: Room, b: Room, c: Room)
    ensures CompareRoomsByName(a, a) == 0
    ensures CompareRoomsByName(a, b) < 0 <==> CompareRoomsByName(b, a) > 0
    ensures a.id != b.id ==> CompareRoomsByName(a, b) != 0
    ensures CompareRoomsByName(a, b) < 0 && CompareRoomsByName(b, c) < 0 ==> CompareRoomsByName(a, c) < 0
    ensures CompareRoomsByName(a, b) <= 0 && CompareRoomsByName(b, c) <= 0 ==> CompareRoomsByName(a, c) <= 0
  {
    ComparatorMeans(a, b);
    ComparatorMeans(b, a);
    ComparatorMeans(a, a);
    if CompareRoomsByName(a, b) <= 0 && CompareRoomsByName(b, c) <= 0 {
      StrcasecmpTransitive(NameOf(a), NameOf(b), NameOf(c));
    }
  }

  // -------------------------------------------------------------------------
  // Sorting
  // -------------------------------------------------------------------------

  predicate InOrder(rooms: seq<Room>) {
    forall i, j :: 0 <= i < j < |rooms| ==> CompareRoomsByName(rooms[i], rooms[j]) <= 0
  }

  predicate DistinctIds(rooms: seq<Room>) {
    forall a, b :: a in rooms && b in rooms && a.id == b.id ==> a == b
  }

  function Insert(r: Room, rooms: seq<Room>): seq<Room> {
    if rooms == [] || CompareRoomsByName(r, rooms[0]) <= 0 then [r] + rooms
    else [rooms[0]] + Insert(r, rooms[1..])
  }

  // What a sort of the rooms by the comparator comes to.
  function Sorted(rooms: seq<Room>): seq<Room> {
    if rooms == [] then [] else Insert(rooms[0], Sorted(rooms[1..]))
  }

  lemma {:induction false} InsertKeeps(r: Room, rooms: seq<Room>)
    ensures multiset(Insert(r, rooms)) == multiset(rooms) + multiset{r}
  {
    if rooms != [] {
      assert rooms == [rooms[0]] + rooms[1..];
      InsertKeeps(r, rooms[1..]);
    }
  }

  lemma InOrderCons(r: Room, rooms: seq<Room>)
    requires InOrder(rooms) && forall x :: x in rooms ==> CompareRoomsByName(r, x) <= 0
    ensures InOrder([r] + rooms)
  {
  }

  lemma {:induction false} InsertSorts(r: Room, rooms: seq<Room>)
    requires InOrder(rooms)
    ensures InOrder(Insert(r, rooms))
  {
    if rooms == [] {
      InOrderCons(r, rooms);
    } else if CompareRoomsByName(r, rooms[0]) <= 0 {
      forall x | x in rooms ensures CompareRoomsByName(r, x) <= 0 {
        if x != rooms[0] {
          ComparatorIsTotalOrder(r, rooms[0], x);
        }
      }
      InOrderCons(r, rooms);
    } else {
      var first, rest := rooms[0], rooms[1..];
      InsertSorts(r, rest);
      InsertKeeps(r, rest);
      ComparatorIsTotalOrder(first, r, first);
      forall x | x in Insert(r, rest) ensures CompareRoomsByName(first, x) <= 0 {
        assert x in multiset(Insert(r, rest));
      }
      InOrderCons(first, Insert(r, rest));
    }
  }

  lemma {:induction false} SortedSorts(rooms: seq<Room>)
    ensures InOrder(Sorted(rooms)) && multiset(Sorted(rooms)) == multiset(rooms)
  {
    if rooms != [] {
      SortedSorts(rooms[1..]);
      InsertSorts(rooms[0], Sorted(rooms[1..]));
      InsertKeeps(rooms[0], Sorted(rooms[1..]));
      assert rooms == [rooms[0]] + rooms[1..];
    }
  }

  lemma SameRooms(p: seq<Room>, q: seq<Room>)
    requires multiset(p) == multiset(q)
    ensures |p| == |q| && forall r :: r in p <==> r in q
  {
    assert |multiset(p)| == |p| && |multiset(q)| == |q|;
    assert forall r :: r in p <==> r in multiset(p);
    assert forall r :: r in q <==> r in multiset(q);
  }

  lemma FirstIsLeast(p: seq<Room>, r: Room)
    requires InOrder(p) && r in p
    ensures r == p[0] || CompareRoomsByName(p[0], r) <= 0
  {
  }

  lemma SameFirst(p: seq<Room>, q: seq<Room>)
    requires p != [] && multiset(p) == multiset(q) && InOrder(p) && InOrder(q) && DistinctIds(p)
    ensures q != [] && p[0] == q[0]
  {
    SameRooms(p, q);
    FirstIsLeast(p, q[0]);
    FirstIsLeast(q, p[0]);
    ComparatorIsTotalOrder(p[0], q[0], p[0]);
    assert p[0] in p && q[0] in p;
  }

  // Rooms with distinct numbers have one order only.
  lemma {:induction false} SortedIsUnique(p: seq<Room>, q: seq<Room>)
    requires multiset(p) == multiset(q) && InOrder(p) && InOrder(q) && DistinctIds(p)
    ensures p == q
  {
    SameRooms(p, q);
    if p != [] {
      SameFirst(p, q);
      TailSame(p, q);
      InOrderTail(p);
      InOrderTail(q);
      assert forall r :: r in p[1..] ==> r in p;
      SortedIsUnique(p[1..], q[1..]);
    }
  }

  lemma InOrderTail(p: seq<Room>)
    requires p != [] && InOrder(p)
    ensures InOrder(p[1..])
  {
    forall i, j | 0 <= i < j < |p| - 1 ensures CompareRoomsByName(p[1..][i], p[1..][j]) <= 0 {
      assert p[1..][i] == p[i + 1] && p[1..][j] == p[j + 1];
    }
  }

  lemma TailSame(p: seq<Room>, q: seq<Room>)
    requires p != [] && q != [] && p[0] == q[0] && multiset(p) == multiset(q)
    ensures multiset(p[1..]) == multiset(q[1..])
  {
    assert p == [p[0]] + p[1..] && q == [q[0]] + q[1..];
    assert multiset(p[1..]) == multiset(p) - multiset{p[0]};
    assert multiset(q[1..]) == multiset(q) - multiset{q[0]};
  }

  // Any sort by the comparator gives the one listing, whatever the order the rooms are stored in.
  lemma ListingIgnoresStoredOrder(stored: seq<Room>, other: seq<Room>, listed: seq<Room>)
    requires DistinctIds(stored) && multiset(stored) == multiset(other)
    requires InOrder(listed) && multiset(listed) == multiset(other)
    ensures listed == Sorted(stored) == Sorted(other)
  {
    SortedSorts(stored);
    SortedSorts(other);
    SameRooms(stored, listed);
    SortedIsUnique(listed, Sorted(stored));
    SortedIsUnique(listed, Sorted(other));
  }

  // -------------------------------------------------------------------------
  // The stored list
  // -------------------------------------------------------------------------

  class RoomNode {
    const room: Room
    var next: RoomNode?

    constructor (room: Room, next: RoomNode?)
      ensures this.room == room && this.next == next
    {
      this.room, this.next := room, next;
    }
  }

  ghost function NodeAt(nodes: seq<RoomNode>, i: nat): RoomNode? {
    if i < |nodes| then nodes[i] else null
  }

  class RoomManager {
    var roomList: RoomNode?
    var roomCount: nat
    ghost var nodes: seq<RoomNode>

    ghost predicate Valid()
      reads this, nodes
    {
      roomList == NodeAt(nodes, 0) && forall i :: 0 <= i < |nodes| ==> nodes[i].next == NodeAt(nodes, i + 1)
    }

    // The rooms in the order they are stored in.
    ghost function Stored(): seq<Room>
      reads this
    {
      seq(|nodes|, i requires 0 <= i < |nodes| reads this => nodes[i].room)
    }

    constructor ()
      ensures Valid() && Stored() == [] && roomCount == 0
    {
      roomList, roomCount, nodes := null, 0, [];
    }

    // The rooms as they are listed: no more than are counted.
    method ListRooms() returns (listed: seq<Room>)
      requires Valid()
      ensures var n := if |Stored()| < roomCount then |Stored()| else roomCount;
              listed == Sorted(Stored()[..n])
    {
      var rooms := new Room[roomCount](_ => Room(0, None, 0));
      var count := 0;
      var r := roomList;
      while r != null && count < roomCount
        invariant count <= |nodes| && count <= roomCount && r == NodeAt(nodes, count)
        invariant rooms[..count] == Stored()[..count]
      {
        rooms[count] := r.room;
        count, r := count + 1, r.next;
      }
      listed := Sorted(rooms[..count]);
    }
  }
}
