/** Sequential segmentation: the reference for what concurrent destinations must produce. */
module Segmentation {

  datatype Option<T> = None | Some(value: T)

  function Flatten<T>(parts: seq<seq<T>>): seq<T> {
    if parts == [] then [] else parts[0] + Flatten(parts[1..])
  }

  /** Cut `data` into consecutive segments of the given sizes; the last one may be shorter. */
  function Segments<T>(data: seq<T>, sizes: seq<nat>): seq<seq<T>> {
    if data == [] then []
    else if sizes == [] || |data| <= sizes[0] then [data]
    else [data[..sizes[0]]] + Segments(data[sizes[0]..], sizes[1..])
  }

  lemma {:induction false} FlattenAppend<T>(a: seq<seq<T>>, b: seq<seq<T>>)
    ensures Flatten(a + b) == Flatten(a) + Flatten(b)
  {
    if a == [] {
      assert a + b == b;
    } else {
      assert (a + b)[1..] == a[1..] + b;
      FlattenAppend(a[1..], b);
    }
  }

  lemma FlattenOne<T>(part: seq<T>)
    ensures Flatten([part]) == part
  {
    assert [part][1..] == [];
  }

  lemma SegmentsCons<T>(part: seq<T>, tail: seq<T>, sizes: seq<nat>)
    requires sizes != [] && 0 < |part| == sizes[0]
    ensures Segments(part + tail, sizes) == [part] + Segments(tail, sizes[1..])
  {
    var data := part + tail;
    assert data[..sizes[0]] == part && data[sizes[0]..] == tail;
    if tail == [] {
      assert data == part;
    }
  }

  /** Parts that are all full are exactly the first segments of whatever they start. */
  lemma {:induction false} FullPartsAreSegments<T>(parts: seq<seq<T>>, rest: seq<T>, sizes: seq<nat>)
    requires |parts| <= |sizes|
    requires forall k :: 0 <= k < |parts| ==> 0 < |parts[k]| == sizes[k]
    ensures Segments(Flatten(parts) + rest, sizes) == parts + Segments(rest, sizes[|parts|..])
  {
    if parts == [] {
      assert Flatten(parts) + rest == rest;
      assert sizes[|parts|..] == sizes;
      assert parts + Segments(rest, sizes) == Segments(rest, sizes);
    } else {
      hide Segments;
      var head, tail, later := parts[0], Flatten(parts[1..]) + rest, Segments(rest, sizes[|parts|..]);
      FullPartsAreSegments(parts[1..], rest, sizes[1..]);
      assert sizes[1..][|parts| - 1..] == sizes[|parts|..];
      ConcatAssociates(head, Flatten(parts[1..]), rest);
      SegmentsCons(head, tail, sizes);
      ConcatAssociates([head], parts[1..], later);
      assert [head] + parts[1..] == parts;
    }
  }

  lemma ConcatAssociates<X>(a: seq<X>, b: seq<X>, c: seq<X>)
    ensures (a + b) + c == a + (b + c)
  {
  }

  /** Full parts, then one that may be shorter: a segmentation of their concatenation. */
  lemma PartsAreSegments<T>(parts: seq<seq<T>>, sizes: seq<nat>)
    requires |parts| <= |sizes|
    requires forall k :: 0 <= k < |parts| ==> 0 < |parts[k]| <= sizes[k]
    requires forall k :: 0 <= k < |parts| - 1 ==> |parts[k]| == sizes[k]
    ensures parts == Segments(Flatten(parts), sizes)
  {
    if parts != [] {
      var n := |parts| - 1;
      var last := parts[n];
      assert parts == parts[..n] + [last];
      FlattenAppend(parts[..n], [last]);
      FlattenOne(last);
      FullPartsAreSegments(parts[..n], last, sizes);
      assert Segments(last, sizes[n..]) == [last];
    }
  }
}
