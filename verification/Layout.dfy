/** Byte layouts: fields of given widths laid end to end, and read back by position. */
module Layout {
  import opened Base

  function Total(widths: seq<nat>): nat {
    if widths == [] then 0 else widths[0] + Total(widths[1..])
  }

  /** The offset at which field i starts. */
  function Offset(widths: seq<nat>, i: nat): nat
    requires i <= |widths|
  {
    if i == 0 then 0 else Offset(widths, i - 1) + widths[i - 1]
  }

  lemma {:induction false} OffsetShift(widths: seq<nat>, i: nat)
    requires 0 < i <= |widths|
    ensures Offset(widths, i) == widths[0] + Offset(widths[1..], i - 1)
  {
    if i == 1 {
      assert Offset(widths, 1) == Offset(widths, 0) + widths[0];
    } else {
      OffsetShift(widths, i - 1);
    }
  }

  lemma {:induction false} OffsetTotal(widths: seq<nat>)
    ensures Offset(widths, |widths|) == Total(widths)
  {
    if widths == [] {
    } else {
      OffsetShift(widths, |widths|);
      OffsetTotal(widths[1..]);
    }
  }

  function Cat(parts: seq<Bytes>): Bytes {
    if parts == [] then [] else parts[0] + Cat(parts[1..])
  }

  lemma {:induction false} CatSnoc(parts: seq<Bytes>)
    requires parts != []
    ensures Cat(parts) == Cat(parts[..|parts| - 1]) + parts[|parts| - 1]
  {
    var n := |parts| - 1;
    if n > 0 {
      CatSnoc(parts[1..]);
      assert parts[..n][1..] == parts[1..][..n - 1];
    }
  }

  /** Appending field after field gives the concatenation. */
  lemma CatOf5(a: Bytes, b: Bytes, c: Bytes, d: Bytes, e: Bytes)
    ensures Cat([a, b, c, d, e]) == a + b + c + d + e
  {
    var p := [a, b, c, d, e];
    assert p[..4] == [a, b, c, d] && [a, b, c, d][..3] == [a, b, c] && [a, b, c][..2] == [a, b] && [a, b][..1] == [a];
    CatSnoc(p);
    CatSnoc([a, b, c, d]);
    CatSnoc([a, b, c]);
    CatSnoc([a, b]);
    assert Cat([a]) == a;
  }

  lemma CatOf7(a: Bytes, b: Bytes, c: Bytes, d: Bytes, e: Bytes, f: Bytes, g: Bytes)
    ensures Cat([a, b, c, d, e, f, g]) == a + b + c + d + e + f + g
  {
    assert [a, b, c, d, e, f, g][..6] == [a, b, c, d, e, f] && [a, b, c, d, e, f][..5] == [a, b, c, d, e];
    CatSnoc([a, b, c, d, e, f, g]);
    CatSnoc([a, b, c, d, e, f]);
    CatOf5(a, b, c, d, e);
  }

  function Cut(data: Bytes, widths: seq<nat>): (parts: seq<Bytes>)
    requires |data| == Total(widths)
    ensures |parts| == |widths|
  {
    if widths == [] then []
    else [data[..widths[0]]] + Cut(data[widths[0]..], widths[1..])
  }

  ghost predicate Fits(parts: seq<Bytes>, widths: seq<nat>) {
    |parts| == |widths| && forall i :: 0 <= i < |parts| ==> |parts[i]| == widths[i]
  }

  /** Cutting what was concatenated gives the parts back. */
  lemma {:induction false} CutCat(parts: seq<Bytes>, widths: seq<nat>)
    requires Fits(parts, widths)
    ensures |Cat(parts)| == Total(widths)
    ensures Cut(Cat(parts), widths) == parts
  {
    if parts == [] {
    } else {
      CutCat(parts[1..], widths[1..]);
      assert Cat(parts)[..widths[0]] == parts[0];
      assert Cat(parts)[widths[0]..] == Cat(parts[1..]);
    }
  }

  /** Concatenating what was cut gives the bytes back. */
  lemma {:induction false} CatCut(data: Bytes, widths: seq<nat>)
    requires |data| == Total(widths)
    ensures Fits(Cut(data, widths), widths)
    ensures Cat(Cut(data, widths)) == data
  {
    if widths == [] {
    } else {
      var rest := Cut(data[widths[0]..], widths[1..]);
      CatCut(data[widths[0]..], widths[1..]);
      assert Cut(data, widths)[1..] == rest;
      assert data == data[..widths[0]] + data[widths[0]..];
    }
  }

  lemma {:induction false} OffsetBound(widths: seq<nat>, i: nat)
    requires i <= |widths|
    ensures Offset(widths, i) <= Total(widths)
    decreases |widths| - i
  {
    if i == |widths| {
      OffsetTotal(widths);
    } else {
      OffsetBound(widths, i + 1);
    }
  }

  /** Field i of a cut is the window of its own width at its own offset. */
  lemma {:induction false} FieldAt(data: Bytes, widths: seq<nat>, i: nat)
    requires |data| == Total(widths) && i < |widths|
    ensures Offset(widths, i) + widths[i] <= |data|
    ensures Cut(data, widths)[i] == data[Offset(widths, i)..Offset(widths, i) + widths[i]]
  {
    OffsetBound(widths, i + 1);
    if i == 0 {
    } else {
      var w := widths[0];
      FieldAt(data[w..], widths[1..], i - 1);
      OffsetShift(widths, i);
      var o := Offset(widths[1..], i - 1);
      assert data[w..][o..o + widths[i]] == data[w + o..w + o + widths[i]];
    }
  }

  /** The parts are the windows that the widths lay out. */
  ghost predicate AreWindows(parts: seq<Bytes>, data: Bytes, widths: seq<nat>) {
    |parts| == |widths| && forall i :: 0 <= i < |widths| ==>
      Offset(widths, i) + widths[i] <= |data| && parts[i] == data[Offset(widths, i)..Offset(widths, i) + widths[i]]
  }

  lemma CutWindows(data: Bytes, widths: seq<nat>)
    requires |data| == Total(widths)
    ensures AreWindows(Cut(data, widths), data, widths)
  {
    forall i | 0 <= i < |widths|
      ensures Offset(widths, i) + widths[i] <= |data|
      ensures Cut(data, widths)[i] == data[Offset(widths, i)..Offset(widths, i) + widths[i]]
    {
      FieldAt(data, widths, i);
    }
  }

  ghost predicate SamePrefix(a: Bytes, b: Bytes, n: nat)
    requires n <= |a| && n <= |b|
  {
    forall i, j :: 0 <= i <= j <= n ==> a[i..j] == b[i..j]
  }

  lemma PrefixWindows(a: Bytes, b: Bytes, n: nat)
    requires n <= |a| && n <= |b| && a[..n] == b[..n]
    ensures SamePrefix(a, b, n)
  {
    forall i, j | 0 <= i <= j <= n
      ensures a[i..j] == b[i..j]
    {
      assert a[i..j] == a[..n][i..j] && b[i..j] == b[..n][i..j];
    }
  }
}
