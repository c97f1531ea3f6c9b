/** Splitting a media port range between replicas. */
module MediaRange {

  type Piece = (int, int)

  /** Where the piece of replica `i` begins: earlier pieces have `size` ports, and the first
      `remainder` of them one more. */
  function Begin(start: int, ports: int, replicas: int, i: int): int
    requires replicas >= 1
  {
    start + i * (ports / replicas) + if i < ports % replicas then i else ports % replicas
  }

  function PieceOf(start: int, end: int, replicas: int, i: int): Piece
    requires replicas >= 1
  {
    (Begin(start, end - start + 1, replicas, i), Begin(start, end - start + 1, replicas, i + 1) - 1)
  }

  /** Consecutive pieces: each begins where the previous one ends. */
  method PartitionRange(start: int, end: int, replicas: int) returns (result: seq<Piece>)
    requires replicas >= 1
    ensures |result| == replicas
    ensures forall i :: 0 <= i < replicas ==> result[i] == PieceOf(start, end, replicas, i)
  {
    var size, remainder := (end - start + 1) / replicas, (end - start + 1) % replicas;
    result := [];
    var current := start;
    for index := 0 to replicas
      invariant |result| == index
      invariant current == Begin(start, end - start + 1, replicas, index)
      invariant forall i :: 0 <= i < index ==> result[i] == PieceOf(start, end, replicas, i)
    {
      var count := size + if index < remainder then 1 else 0;
      BeginAdvances(start, end - start + 1, replicas, index);
      result := result + [(current, current + count - 1)];
      current := current + count;
    }
  }

  /** The width of a piece: larger ones come first. */
  function Width(ports: int, replicas: int, i: int): int
    requires replicas >= 1
  {
    ports / replicas + if i < ports % replicas then 1 else 0
  }

  lemma BeginAdvances(start: int, ports: int, replicas: int, i: int)
    requires replicas >= 1 && i >= 0
    ensures Begin(start, ports, replicas, i + 1) == Begin(start, ports, replicas, i) + Width(ports, replicas, i)
  {
    var size := ports / replicas;
    assert (i + 1) * size == i * size + size;
  }

  lemma BeginEnds(start: int, ports: int, replicas: int)
    requires replicas >= 1
    ensures Begin(start, ports, replicas, 0) == start
    ensures Begin(start, ports, replicas, replicas) == start + ports
  {
    assert ports == replicas * (ports / replicas) + ports % replicas;
  }

  lemma {:induction false} BeginIncreases(start: int, ports: int, replicas: int, i: int, j: int)
    requires replicas >= 1 && ports >= replicas && 0 <= i <= j
    ensures j - i <= Begin(start, ports, replicas, j) - Begin(start, ports, replicas, i)
    decreases j - i
  {
    if i < j {
      BeginIncreases(start, ports, replicas, i, j - 1);
      BeginAdvances(start, ports, replicas, j - 1);
      assert ports / replicas >= 1;
    }
  }

  predicate Owns(start: int, end: int, replicas: int, i: int, port: int)
    requires replicas >= 1
  {
    0 <= i < replicas && PieceOf(start, end, replicas, i).0 <= port <= PieceOf(start, end, replicas, i).1
  }

  /** With a port for every replica, the pieces are not empty, lie in the range, and have sizes that
      differ by at most one with the larger ones first. */
  lemma PiecesAreFair(start: int, end: int, replicas: int, i: int, j: int)
    requires replicas >= 1 && end - start + 1 >= replicas && 0 <= i <= j < replicas
    ensures var a, b := PieceOf(start, end, replicas, i), PieceOf(start, end, replicas, j);
      && start <= a.0 <= a.1 <= end
      && 0 <= (a.1 - a.0) - (b.1 - b.0) <= 1
      && (i < j ==> a.1 < b.0)
      && (j == i + 1 ==> b.0 == a.1 + 1)
  {
    var ports := end - start + 1;
    BeginEnds(start, ports, replicas);
    BeginIncreases(start, ports, replicas, 0, i);
    BeginIncreases(start, ports, replicas, i, i + 1);
    BeginIncreases(start, ports, replicas, i + 1, replicas);
    if i < j {
      BeginIncreases(start, ports, replicas, i + 1, j);
    }
    BeginAdvances(start, ports, replicas, i);
    BeginAdvances(start, ports, replicas, j);
  }

  /** Each port of the range has an owner, found by walking the pieces. */
  lemma {:induction false} SomeOwner(start: int, end: int, replicas: int, n: int, port: int) returns (i: int)
    requires replicas >= 1 && 0 <= n <= replicas
    requires start <= port < Begin(start, end - start + 1, replicas, n)
    ensures Owns(start, end, replicas, i, port)
    decreases n
  {
    BeginEnds(start, end - start + 1, replicas);
    if Begin(start, end - start + 1, replicas, n - 1) <= port {
      i := n - 1;
    } else {
      i := SomeOwner(start, end, replicas, n - 1, port);
    }
  }

  /** Every port of the range belongs to exactly one replica, and no other port to any. */
  lemma EveryPortHasOneOwner(start: int, end: int, replicas: int, port: int)
    requires replicas >= 1 && end - start + 1 >= replicas
    ensures start <= port <= end <==> exists i :: Owns(start, end, replicas, i, port)
    ensures forall i, j :: Owns(start, end, replicas, i, port) && Owns(start, end, replicas, j, port) ==> i == j
  {
    BeginEnds(start, end - start + 1, replicas);
    if start <= port <= end {
      var i := SomeOwner(start, end, replicas, replicas, port);
    }
    forall i, j | Owns(start, end, replicas, i, port) && Owns(start, end, replicas, j, port)
      ensures i == j && start <= port <= end
    {
      PiecesAreFair(start, end, replicas, if i <= j then i else j, if i <= j then j else i);
    }
    if i :| Owns(start, end, replicas, i, port) {
      PiecesAreFair(start, end, replicas, i, i);
    }
  }
}
