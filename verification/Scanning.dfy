/**
 Scanning a byte stream with a decision procedure. `move` looks at the head of a stream and
 either stops, because it cannot decide yet, or disposes of some bytes and delivers some items.

 The theory needs one property of `move`: later bytes never change a decision already taken.
 Under it, feeding a stream in pieces is the same as scanning it whole.
 */
module Scanning {

  datatype Move<T> = Stop | Go(size: nat, delivered: seq<T>)

  datatype Scanned<B, T> = Scanned(items: seq<T>, rest: seq<B>) {
    function After(first: seq<T>): Scanned<B, T> {
      Scanned(first + items, rest)
    }
  }

  predicate Goes<B, T>(m: Move<T>, s: seq<B>) {
    m.Go? && 1 <= m.size <= |s|
  }

  /** Greedy scan of a whole stream: what it delivers, and the bytes left undecided at its end. */
  function ScanBy<B, T>(move: seq<B> -> Move<T>, s: seq<B>): Scanned<B, T>
    decreases |s|
  {
    var m := move(s);
    if Goes(m, s) then ScanBy(move, s[m.size..]).After(m.delivered) else Scanned([], s)
  }

  ghost predicate Stable<B(!new), T>(move: seq<B> -> Move<T>) {
    forall s, t :: Goes(move(s), s) ==> move(s + t) == move(s)
  }

  lemma {:induction false} EndsUndecided<B, T>(move: seq<B> -> Move<T>, s: seq<B>)
    ensures var r := ScanBy(move, s).rest; !Goes(move(r), r)
    decreases |s|
  {
    var m := move(s);
    if Goes(m, s) {
      EndsUndecided(move, s[m.size..]);
    }
  }

  /** Scanning may stop anywhere and resume from the undecided bytes. */
  lemma {:induction false} Resumes<B(!new), T>(move: seq<B> -> Move<T>, s: seq<B>, t: seq<B>)
    requires Stable(move)
    ensures ScanBy(move, s + t) ==
            ScanBy(move, ScanBy(move, s).rest + t).After(ScanBy(move, s).items)
    decreases |s|
  {
    var m := move(s);
    if Goes(m, s) {
      assert move(s + t) == m;
      assert (s + t)[m.size..] == s[m.size..] + t;
      Resumes(move, s[m.size..], t);
      var first := ScanBy(move, s[m.size..]);
      var last := ScanBy(move, first.rest + t);
      assert m.delivered + (first.items + last.items) == (m.delivered + first.items) + last.items;
    } else {
      assert [] + ScanBy(move, s + t).items == ScanBy(move, s + t).items;
    }
  }

  /** Feeding one element at a time to a receiver that holds `buf`. */
  function FeedEach<B, T>(move: seq<B> -> Move<T>, buf: seq<B>, input: seq<B>): Scanned<B, T>
    decreases |input|
  {
    if input == [] then Scanned([], buf)
    else
      var one := ScanBy(move, buf + [input[0]]);
      FeedEach(move, one.rest, input[1..]).After(one.items)
  }

  /** Incremental scanning refines batch scanning. */
  lemma {:induction false} FeedEachIsScan<B(!new), T>(move: seq<B> -> Move<T>, buf: seq<B>, input: seq<B>)
    requires Stable(move) && !Goes(move(buf), buf)
    ensures FeedEach(move, buf, input) == ScanBy(move, buf + input)
    decreases |input|
  {
    if input == [] {
      assert buf + input == buf;
    } else {
      var first, later := buf + [input[0]], input[1..];
      assert buf + input == first + later;
      EndsUndecided(move, first);
      FeedEachIsScan(move, ScanBy(move, first).rest, later);
      Resumes(move, first, later);
    }
  }

  // ---- No element is lost or used twice ---------------------------------------------------

  datatype Segment<B, T> = Segment(source: seq<B>, delivered: seq<T>)

  function Join<X>(parts: seq<seq<X>>): seq<X> {
    if parts == [] then [] else parts[0] + Join(parts[1..])
  }

  /** The pieces a scan disposes of, in order. */
  function Segments<B, T>(move: seq<B> -> Move<T>, s: seq<B>): seq<Segment<B, T>>
    decreases |s|
  {
    var m := move(s);
    if Goes(m, s) then [Segment(s[..m.size], m.delivered)] + Segments(move, s[m.size..]) else []
  }

  function Sources<B, T>(segments: seq<Segment<B, T>>): seq<B> {
    if segments == [] then [] else segments[0].source + Sources(segments[1..])
  }

  function Items<B, T>(segments: seq<Segment<B, T>>): seq<T> {
    if segments == [] then [] else segments[0].delivered + Items(segments[1..])
  }

  lemma Reassociate<B>(s: seq<B>, n: nat, middle: seq<B>, rest: seq<B>)
    requires n <= |s| && s[n..] == middle + rest
    ensures s == (s[..n] + middle) + rest
  {
    assert s == s[..n] + s[n..];
  }

  lemma {:induction false} SegmentsPartition<B, T>(move: seq<B> -> Move<T>, s: seq<B>)
    ensures s == Sources(Segments(move, s)) + ScanBy(move, s).rest
    ensures ScanBy(move, s).items == Items(Segments(move, s))
    decreases |s|
  {
    var m := move(s);
    if Goes(m, s) {
      var later := s[m.size..];
      SegmentsPartition(move, later);
      assert Segments(move, s)[1..] == Segments(move, later);
      Reassociate(s, m.size, Sources(Segments(move, later)), ScanBy(move, later).rest);
    }
  }

  /** Every piece is one decision of the procedure about what lay before it in the stream. */
  lemma {:induction false} SegmentIsMove<B, T>(move: seq<B> -> Move<T>, s: seq<B>, i: nat) returns (at: seq<B>)
    requires i < |Segments(move, s)|
    ensures Goes(move(at), at)
    ensures Segments(move, s)[i] == Segment(at[..move(at).size], move(at).delivered)
    decreases |s|
  {
    if i == 0 {
      at := s;
    } else {
      at := SegmentIsMove(move, s[move(s).size..], i - 1);
    }
  }

  // ---- Streams of pieces ------------------------------------------------------------------

  /** If every piece contributes its items whatever follows it, so does the whole stream. */
  lemma {:induction false} PiecesCompose<B(!new), T>(
    scan: seq<B> -> Scanned<B, T>, pieces: seq<seq<B>>, parts: seq<seq<T>>, rest: seq<B>)
    requires |pieces| == |parts|
    requires forall i, t :: 0 <= i < |pieces| ==> scan(pieces[i] + t) == scan(t).After(parts[i])
    ensures scan(Join(pieces) + rest) == scan(rest).After(Join(parts))
    decreases |pieces|
  {
    if pieces == [] {
      assert [] + rest == rest;
      assert [] + scan(rest).items == scan(rest).items;
    } else {
      var later := Join(pieces[1..]) + rest;
      assert Join(pieces) + rest == pieces[0] + later;
      PiecesCompose(scan, pieces[1..], parts[1..], rest);
      assert parts[0] + (Join(parts[1..]) + scan(rest).items) == Join(parts) + scan(rest).items;
    }
  }

  lemma {:induction false} JoinAppend<X>(parts: seq<seq<X>>, x: seq<X>)
    ensures Join(parts + [x]) == Join(parts) + x
    decreases |parts|
  {
    if parts == [] {
      assert [] + [x] == [x] && [x][1..] == [];
      assert Join([x]) == x + [] == [] + x;
    } else {
      assert (parts + [x])[1..] == parts[1..] + [x];
      JoinAppend(parts[1..], x);
    }
  }

  lemma {:induction false} JoinSingles<X>(items: seq<X>, parts: seq<seq<X>>)
    requires |parts| == |items| && forall i :: 0 <= i < |parts| ==> parts[i] == [items[i]]
    ensures Join(parts) == items
    decreases |parts|
  {
    if parts != [] {
      JoinSingles(items[1..], parts[1..]);
    }
  }
}
