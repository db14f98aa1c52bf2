/** The streaming copy: `copyWithContext` reading through a TeeReader, so that every byte goes
    to the client before it goes to disk. Reads, client writes and disk writes may all fail. */
module CopyLoop {

  type Bytes = seq<bv8>

  /** How a read ends: with more to come, at the end of the stream, or with an error. Data
      may come with any of them. */
  datatype End = More | Eof | ReadError

  /** How much of a write is taken: all, or only the first bytes before an error. */
  datatype Accept = All | Only(n: nat)

  /** What the environment does in one turn of the loop. */
  datatype Turn = Turn(cancelled: bool, data: Bytes, end: End, client: Accept, disk: Accept)

  datatype Outcome = Complete | Cancelled | ReadFailed | ClientFailed | DiskFailed

  /** The bytes delivered so far at the three places. */
  datatype Progress = Progress(upstream: Bytes, client: Bytes, disk: Bytes)

  function Taken(a: Accept, data: Bytes): Bytes {
    if a.Only? && a.n < |data| then data[..a.n] else data
  }

  predicate TakesAll(a: Accept, data: Bytes) {
    Taken(a, data) == data
  }

  /** All that upstream has to give: the data up to the first read that ends the stream. */
  function Stream(turns: seq<Turn>): Bytes {
    if turns == [] then [] else turns[0].data + if turns[0].end.More? then Stream(turns[1..]) else []
  }

  /** How the copy ends, read off the turns. */
  function Ending(turns: seq<Turn>): Outcome {
    if turns == [] then Complete
    else if turns[0].cancelled then Cancelled
    else if !TakesAll(turns[0].client, turns[0].data) then
      if TakesAll(turns[0].disk, Taken(turns[0].client, turns[0].data)) then ClientFailed else DiskFailed
    else if !TakesAll(turns[0].disk, turns[0].data) then DiskFailed
    else match turns[0].end
         case More => Ending(turns[1..])
         case Eof => Complete
         case ReadError => ReadFailed
  }

  /** Disk never holds more than the client has, and the client never more than upstream gave. */
  ghost predicate Ordered(p: Progress, stream: Bytes) {
    p.disk <= p.client <= p.upstream <= stream
  }

  /** The three places after each operation of one turn: the read, the client's write, the disk's. */
  function Snapshots(before: Bytes, turn: Turn): seq<Progress> {
    var sent := Taken(turn.client, turn.data);
    var got := before + turn.data;
    [Progress(got, before, before), Progress(got, before + sent, before),
     Progress(got, before + sent, before + Taken(turn.disk, sent))]
  }

  /** The turn leaves the loop running. */
  predicate GoesOn(turn: Turn) {
    TakesAll(turn.client, turn.data) && TakesAll(turn.disk, turn.data) && turn.end.More?
  }

  /** All points of a copy that starts with `before` at all three places. */
  function Points(before: Bytes, turns: seq<Turn>): seq<Progress>
    decreases |turns|
  {
    if turns == [] || turns[0].cancelled then []
    else Snapshots(before, turns[0]) + if GoesOn(turns[0]) then Points(before + turns[0].data, turns[1..]) else []
  }

  ghost predicate Follows(p: Progress, q: Progress) {
    p.upstream <= q.upstream && p.client <= q.client && p.disk <= q.disk
  }

  ghost predicate AllOrdered(points: seq<Progress>, stream: Bytes) {
    forall k :: 0 <= k < |points| ==> Ordered(points[k], stream)
  }

  ghost predicate Rising(points: seq<Progress>) {
    forall j, k :: 0 <= j <= k < |points| ==> Follows(points[j], points[k])
  }

  ghost predicate AllFrom(points: seq<Progress>, before: Bytes) {
    forall k :: 0 <= k < |points| ==> Follows(Progress(before, before, before), points[k])
  }

  lemma Grown(p: Bytes, q: Bytes, r: Bytes)
    requires q <= r
    ensures p <= p + q <= p + r
  {
  }

  lemma Regroup(a: Bytes, b: Bytes, c: Bytes)
    ensures a + (b + c) == a + b + c && a + b <= a + (b + c)
  {
  }

  lemma SnapshotsOrdered(before: Bytes, turn: Turn, stream: Bytes)
    requires before + turn.data <= stream
    ensures AllOrdered(Snapshots(before, turn), stream) && Rising(Snapshots(before, turn)) && AllFrom(Snapshots(before, turn), before)
    ensures forall k :: 0 <= k < 3 ==> Snapshots(before, turn)[k].upstream <= before + turn.data
  {
    var sent := Taken(turn.client, turn.data);
    Grown(before, sent, turn.data);
    Grown(before, Taken(turn.disk, sent), sent);
  }

  lemma JoinedPoints(a: seq<Progress>, b: seq<Progress>, middle: Bytes, stream: Bytes)
    requires AllOrdered(a, stream) && AllOrdered(b, stream) && Rising(a) && Rising(b) && AllFrom(b, middle)
    requires forall k :: 0 <= k < |a| ==> a[k].upstream <= middle
    ensures AllOrdered(a + b, stream) && Rising(a + b)
  {
    forall j, k | 0 <= j < |a| && 0 <= k < |b| ensures Follows(a[j], b[k]) {
      assert Ordered(a[j], stream) && Follows(Progress(middle, middle, middle), b[k]);
    }
    hide Follows, Ordered;
  }

  /** At every point of a copy the disk holds a prefix of what the client has, and the client a prefix
      of what upstream gave; and none of the three ever loses a byte. */
  lemma {:induction false} PointsOrdered(before: Bytes, turns: seq<Turn>)
    ensures AllOrdered(Points(before, turns), before + Stream(turns)) && Rising(Points(before, turns))
    ensures AllFrom(Points(before, turns), before)
    decreases |turns|
  {
    if turns == [] || turns[0].cancelled {
    } else {
      var first, stream, middle := Snapshots(before, turns[0]), before + Stream(turns), before + turns[0].data;
      var rest := if turns[0].end.More? then Stream(turns[1..]) else [];
      Regroup(before, turns[0].data, rest);
      SnapshotsOrdered(before, turns[0], stream);
      if GoesOn(turns[0]) {
        PointsOrdered(middle, turns[1..]);
        assert stream == middle + Stream(turns[1..]);
        JoinedPoints(first, Points(middle, turns[1..]), middle, stream);
        LaterFrom(Points(middle, turns[1..]), before, turns[0].data);
      } else {
        assert Points(before, turns) == first + [] == first;
      }
    }
  }

  lemma LaterFrom(points: seq<Progress>, before: Bytes, more: Bytes)
    requires AllFrom(points, before + more)
    ensures AllFrom(points, before)
  {
    forall k | 0 <= k < |points| ensures Follows(Progress(before, before, before), points[k]) {
      assert Follows(Progress(before + more, before + more, before + more), points[k]);
    }
  }

  lemma TurnStep(turns: seq<Turn>, i: nat, got: Bytes)
    requires i < |turns| && got + Stream(turns[i..]) == Stream(turns)
    ensures Ending(turns[i..]) == if GoesOn(turns[i]) && !turns[i].cancelled then Ending(turns[i + 1..]) else Ending([turns[i]])
    ensures GoesOn(turns[i]) ==> got + turns[i].data + Stream(turns[i + 1..]) == Stream(turns)
    ensures !turns[i].end.More? ==> got + turns[i].data == Stream(turns)
    ensures !turns[i].cancelled ==>
              Points(got, turns[i..]) ==
              Snapshots(got, turns[i]) + if GoesOn(turns[i]) then Points(got + turns[i].data, turns[i + 1..]) else []
  {
    var rest := if turns[i].end.More? then Stream(turns[i + 1..]) else [];
    assert turns[i..][0] == turns[i] && turns[i..][1..] == turns[i + 1..];
    assert Stream(turns[i..]) == turns[i].data + rest;
    hide Stream;
    Regroup(got, turns[i].data, rest);
  }

  /** Where a turn leaves the three places. */
  lemma TurnEnd(before: Bytes, turn: Turn)
    requires !turn.cancelled
    ensures var end, got := Snapshots(before, turn)[2], before + turn.data;
            if GoesOn(turn) then end == Progress(got, got, got)
            else match Ending([turn])
                 case ClientFailed => end.disk == end.client != end.upstream
                 case DiskFailed => end.disk != end.client
                 case Cancelled => false
                 case _ => end == Progress(got, got, got) && !turn.end.More?
  {
    var sent := Taken(turn.client, turn.data);
    if Taken(turn.disk, sent) != sent {
      NotSame(before, Taken(turn.disk, sent), sent);
    }
    if sent != turn.data {
      NotSame(before, sent, turn.data);
    }
  }

  /** One turn of the loop: read, then the client, then the disk. */
  method TakeTurn(turn: Turn, at: Progress) returns (w: nat, end: Progress, points: seq<Progress>, stop: bool, done: Outcome)
    requires !turn.cancelled && at.upstream == at.client == at.disk
    ensures points == Snapshots(at.upstream, turn) && end == points[2] && |end.disk| == |at.disk| + w
    ensures (stop <==> !GoesOn(turn)) && (stop ==> done == Ending([turn]))
  {
    end := at.(upstream := at.upstream + turn.data);
    points := [end];
    var sent := Taken(turn.client, turn.data);
    end := end.(client := end.client + sent);
    points := points + [end];
    var written := Taken(turn.disk, sent);
    end := end.(disk := end.disk + written);
    points := points + [end];
    w := |written|;
    if w < |sent| {
      return w, end, points, true, DiskFailed;
    }
    if sent != turn.data {
      return w, end, points, true, ClientFailed;
    }
    stop := !turn.end.More?;
    done := if turn.end.ReadError? then ReadFailed else Complete;
  }

  /** The copy loop passes exactly through the points of its turns. At the end of a stream that nothing
      interrupted all three places are equal, also when it ended with a read error. */
  method Copy(turns: seq<Turn>) returns (done: Outcome, copied: nat, end: Progress, trace: seq<Progress>)
    ensures done == Ending(turns) && trace == Points([], turns)
    ensures end == LastOf(trace) && copied == |end.disk|
    ensures AllOrdered(trace, Stream(turns)) && Rising(trace) && Ordered(end, Stream(turns))
    ensures done == Complete || done == ReadFailed ==> end == Progress(Stream(turns), Stream(turns), Stream(turns))
    ensures done == ClientFailed ==> end.disk == end.client != end.upstream
    ensures done == DiskFailed ==> end.disk != end.client
    ensures done == Cancelled ==> end.disk == end.client == end.upstream
  {
    PointsOrdered([], turns);
    assert [] + Stream(turns) == Stream(turns);
    hide Snapshots, AllOrdered, Rising, Stream, Points, Ending, GoesOn;
    var i := 0;
    copied, end, trace := 0, Progress([], [], []), [];
    assert turns[0..] == turns && [] + Points([], turns) == Points([], turns);
    while i < |turns|
      invariant i <= |turns| && copied == |end.disk| && end.disk == end.client == end.upstream
      invariant end.upstream + Stream(turns[i..]) == Stream(turns) && Ending(turns[i..]) == Ending(turns)
      invariant trace + Points(end.upstream, turns[i..]) == Points([], turns) && end == LastOf(trace)
    {
      ghost var before, earlier := end.upstream, trace;
      var turn := turns[i];
      TurnStep(turns, i, before);
      if turn.cancelled {
        CancelledTurn(turns[i..], before);
        return Cancelled, copied, end, trace;
      }
      var w, points, stop;
      w, end, points, stop, done := TakeTurn(turn, end);
      trace, copied := trace + points, copied + w;
      TurnEnd(before, turn);
      Appended(earlier, before, turn, Points(before + turn.data, turns[i + 1..]));
      if stop {
        return;
      }
      i := i + 1;
    }
    assert turns[i..] == [];
    NoTurns(end.upstream);
    done := Complete;
  }

  lemma CancelledTurn(turns: seq<Turn>, before: Bytes)
    requires turns != [] && turns[0].cancelled
    ensures Ending(turns) == Cancelled && Points(before, turns) == []
  {
  }

  lemma NoTurns(before: Bytes)
    ensures Ending([]) == Complete && Points(before, []) == [] && Stream([]) == []
  {
  }

  function LastOf(trace: seq<Progress>): Progress {
    if trace == [] then Progress([], [], []) else trace[|trace| - 1]
  }

  lemma Appended(earlier: seq<Progress>, before: Bytes, turn: Turn, rest: seq<Progress>)
    ensures earlier + (Snapshots(before, turn) + rest) == earlier + Snapshots(before, turn) + rest
    ensures earlier + (Snapshots(before, turn) + []) == earlier + Snapshots(before, turn)
    ensures |Snapshots(before, turn)| == 3 && LastOf(earlier + Snapshots(before, turn)) == Snapshots(before, turn)[2]
  {
  }

  lemma NotSame(p: Bytes, a: Bytes, b: Bytes)
    requires a != b
    ensures p + a != p + b
  {
    assert a == (p + a)[|p|..] && b == (p + b)[|p|..];
  }

  /** The turn takes all its data to both places without a cancellation or a read error. */
  predicate Clean(turn: Turn) {
    !turn.cancelled && TakesAll(turn.client, turn.data) && TakesAll(turn.disk, turn.data) && !turn.end.ReadError?
  }

  /** A copy is complete exactly when every turn up to the end of the stream is clean. */
  lemma {:induction false} CompleteExactly(turns: seq<Turn>)
    ensures Ending(turns) == Complete <==> forall k :: 0 <= k < |turns| && Reaches(turns, k) ==> Clean(turns[k])
  {
    if turns == [] {
    } else {
      assert Reaches(turns, 0);
      if Ending(turns) == Complete && turns[0].end.More? {
        CompleteExactly(turns[1..]);
        forall k | 0 <= k < |turns| && Reaches(turns, k) ensures Clean(turns[k]) {
          if k > 0 {
            ReachesRest(turns, k);
          }
        }
      }
      if (forall k :: 0 <= k < |turns| && Reaches(turns, k) ==> Clean(turns[k])) && turns[0].end.More? {
        forall k | 0 <= k < |turns[1..]| && Reaches(turns[1..], k) ensures Clean(turns[1..][k]) {
          ReachesRest(turns, k + 1);
        }
        CompleteExactly(turns[1..]);
      }
    }
  }

  lemma ReachesRest(turns: seq<Turn>, k: nat)
    requires 0 < k < |turns| && turns[0].end.More?
    ensures Reaches(turns, k) <==> Reaches(turns[1..], k - 1)
    ensures turns[k] == turns[1..][k - 1]
  {
    assert forall j :: 0 <= j < k - 1 ==> turns[1..][j] == turns[j + 1];
    if Reaches(turns[1..], k - 1) {
      forall j | 0 <= j < k ensures turns[j].end.More? {
        assert j > 0 ==> turns[j] == turns[1..][j - 1];
      }
    }
  }

  /** All reads before this one promise more. */
  predicate Reaches(turns: seq<Turn>, k: nat)
    requires k < |turns|
  {
    forall j :: 0 <= j < k ==> turns[j].end.More?
  }
}
