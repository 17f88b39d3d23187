/**
 String helpers: `mkString`, a delimiter join over an array of strings, and
 the unit choice of `formatSize`, which scales a byte count to B, KB, MB,
 GB or TB (or reports it as not available).
 */
module Strings {

  // ---------------------------------------------------------------------
  // mkString
  // ---------------------------------------------------------------------

  /** Sum of the lengths of `parts`. */
  function TotalLength(parts: seq<string>): nat
  {
    if |parts| == 0 then 0 else |parts[0]| + TotalLength(parts[1..])
  }

  /**
   The elements of `parts` in order, with `delimiter` between consecutive
   elements and none after the last (Scala's `mkString`).
   */
  function Join(parts: seq<string>, delimiter: string): (r: string)
    ensures |parts| == 0 ==> r == ""
    ensures |parts| >= 1 ==> |r| == TotalLength(parts) + (|parts| - 1) * |delimiter|
  {
    if |parts| == 0 then ""
    else if |parts| == 1 then parts[0]
    else parts[0] + delimiter + Join(parts[1..], delimiter)
  }

  /** Joining two non-empty runs puts one delimiter where they meet. */
  lemma {:induction false} JoinAppend(a: seq<string>, b: seq<string>, delimiter: string)
    requires |a| >= 1 && |b| >= 1
    ensures Join(a + b, delimiter) == Join(a, delimiter) + delimiter + Join(b, delimiter)
  {
    assert (a + b)[0] == a[0];
    if |a| == 1 {
      assert (a + b)[1..] == b;
    } else {
      assert (a + b)[1..] == a[1..] + b;
      JoinAppend(a[1..], b, delimiter);
    }
  }

  /** Where element `k` starts in the joined string. */
  function Offset(parts: seq<string>, delimiter: string, k: nat): nat
    requires k <= |parts|
  {
    TotalLength(parts[..k]) + k * |delimiter|
  }

  lemma {:induction false} TotalLengthAppend(a: seq<string>, b: seq<string>)
    ensures TotalLength(a + b) == TotalLength(a) + TotalLength(b)
  {
    if |a| == 0 {
      assert a + b == b;
    } else {
      assert (a + b)[1..] == a[1..] + b;
      TotalLengthAppend(a[1..], b);
    }
  }

  /** From the offset of element `k` on, the joined string is the join of `parts[k..]`. */
  lemma JoinFrom(parts: seq<string>, delimiter: string, k: nat)
    requires k < |parts|
    ensures Offset(parts, delimiter, k) <= |Join(parts, delimiter)|
    ensures Join(parts, delimiter)[Offset(parts, delimiter, k)..] == Join(parts[k..], delimiter)
  {
    if k == 0 {
      assert parts[k..] == parts;
      assert parts[..k] == [];
    } else {
      var left := Join(parts[..k], delimiter);
      assert parts == parts[..k] + parts[k..];
      JoinAppend(parts[..k], parts[k..], delimiter);
      assert k * |delimiter| == (k - 1) * |delimiter| + |delimiter|;
      assert Offset(parts, delimiter, k) == |left| + |delimiter|;
      assert Join(parts, delimiter) == left + delimiter + Join(parts[k..], delimiter);
    }
  }

  /**
   Layout of the joined string: element `k` sits at `Offset(k)`, a delimiter
   follows it unless it is the last element, and the string ends right after
   the last element.
   */
  lemma JoinLayout(parts: seq<string>, delimiter: string, k: nat)
    requires k < |parts|
    ensures var r, o := Join(parts, delimiter), Offset(parts, delimiter, k);
      && o + |parts[k]| <= |r|
      && r[o..o + |parts[k]|] == parts[k]
      && (k + 1 < |parts| ==>
            o + |parts[k]| + |delimiter| <= |r| && r[o + |parts[k]|..o + |parts[k]| + |delimiter|] == delimiter)
      && (k + 1 == |parts| ==> o + |parts[k]| == |r|)
  {
    var r := Join(parts, delimiter);
    var o := Offset(parts, delimiter, k);
    var tail := Join(parts[k..], delimiter);
    JoinFrom(parts, delimiter, k);
    assert r[o..] == tail;
    // `tail` starts with element k, followed by a delimiter when more follow.
    assert parts[k..][0] == parts[k];
    if k + 1 < |parts| {
      assert parts[k..][1..] == parts[k + 1..];
      assert tail == parts[k] + delimiter + Join(parts[k + 1..], delimiter);
      assert tail[..|parts[k]|] == parts[k];
      assert tail[|parts[k]|..|parts[k]| + |delimiter|] == delimiter;
    } else {
      assert tail == parts[k];
    }
  }

  /**
   Joins `strings` with `delimiter` the way CarbonData's `Strings.mkString` does: append each
   element, then a delimiter unless it was the last one. The array is only
   read.
   */
  method MkString(strings: array<string>, delimiter: string) returns (r: string)
    ensures r == Join(strings[..], delimiter)
    ensures strings.Length == 0 ==> r == ""
    ensures strings.Length == 1 ==> r == strings[0]
    ensures strings.Length >= 1 ==> |r| == TotalLength(strings[..]) + (strings.Length - 1) * |delimiter|
  {
    var builder := "";
    var i := 0;
    while i < strings.Length
      invariant 0 <= i <= strings.Length
      invariant 0 < i < strings.Length ==> builder == Join(strings[..i], delimiter) + delimiter
      invariant i == 0 || i == strings.Length ==> builder == Join(strings[..i], delimiter)
    {
      if i > 0 {
        JoinAppend(strings[..i], [strings[i]], delimiter);
        assert strings[..i] + [strings[i]] == strings[..i + 1];
      } else {
        assert strings[..1] == [strings[0]];
      }
      builder := builder + strings[i];
      if i != strings.Length - 1 {
        builder := builder + delimiter;
      }
      i := i + 1;
    }
    assert strings[..i] == strings[..];
    r := builder;
  }

  // ---------------------------------------------------------------------
  // formatSize: unit choice and scaled value
  // ---------------------------------------------------------------------

  /** The thresholds as `Strings.formatSize` builds them, as Java `long` values. */
  const KbLong: bv64 := 1024
  const MbLong: bv64 := KbLong << 10
  const GbLong: bv64 := MbLong << 10
  const TbLong: bv64 := GbLong << 10

  /** A Java `long` bit pattern read as a signed integer. */
  function SignedLong(v: bv64): int
  {
    if v as int < 0x8000_0000_0000_0000 then v as int else v as int - 0x1_0000_0000_0000_0000
  }

  /** The thresholds as the reals the float comparisons see. */
  const Kb: real := SignedLong(KbLong) as real
  const Mb: real := SignedLong(MbLong) as real
  const Gb: real := SignedLong(GbLong) as real
  const Tb: real := SignedLong(TbLong) as real

  /**
   The four thresholds are 2^10, 2^20, 2^30 and 2^40: the shifts do not wrap
   and the values are positive as signed `long`s.
   */
  lemma ThresholdsArePowersOfTwo()
    ensures SignedLong(KbLong) == Power1024(1) == 1024
    ensures SignedLong(MbLong) == Power1024(2) == 1048576
    ensures SignedLong(GbLong) == Power1024(3) == 1073741824
    ensures SignedLong(TbLong) == Power1024(4) == 1099511627776
  {
  }

  /** Each unit's divisor is the Java code's threshold for that unit. */
  lemma DivisorsAreThresholds()
    ensures Divisor(B) == 1.0
    ensures Divisor(KB) == Kb == 1024.0
    ensures Divisor(MB) == Mb == 1048576.0
    ensures Divisor(GB) == Gb == 1073741824.0
    ensures Divisor(TB) == Tb == 1099511627776.0
  {
  }

  function Power1024(n: nat): nat
  {
    if n == 0 then 1 else 1024 * Power1024(n - 1)
  }

  datatype SizeUnit = B | KB | MB | GB | TB

  /** What `formatSize` renders: "NA", or a value scaled to a unit. */
  datatype FormattedSize = NotAvailable | Scaled(value: real, unit: SizeUnit)

  /** Position of a unit in the ladder B < KB < MB < GB < TB. */
  function Rank(u: SizeUnit): nat
  {
    match u
    case B => 0
    case KB => 1
    case MB => 2
    case GB => 3
    case TB => 4
  }

  /** Bytes per unit: 1024 to the power of the unit's rank. */
  function Divisor(u: SizeUnit): real
  {
    Power1024(Rank(u)) as real
  }

  /**
   The unit choice of `formatSize` on an exact real input. The comparisons
   are those of the Java code, in its order, against its `long` thresholds.
   */
  function FormatSize(sizeInBytes: real): (r: FormattedSize)
    ensures r.NotAvailable? <==> sizeInBytes < 0.0
    ensures r.Scaled? ==> r.value * Divisor(r.unit) == sizeInBytes
    ensures r.Scaled? && r.unit == B ==> r.value == sizeInBytes
    ensures r.Scaled? && r.unit != B ==> 1.0 <= r.value
    ensures r.Scaled? && r.unit != TB ==> r.value < 1024.0
  {
    DivisorsAreThresholds();
    if sizeInBytes < 0.0 then NotAvailable
    else if sizeInBytes >= 0.0 && sizeInBytes < Kb then Scaled(sizeInBytes, B)
    else if sizeInBytes >= Kb && sizeInBytes < Mb then Scaled(sizeInBytes / Kb, KB)
    else if sizeInBytes >= Mb && sizeInBytes < Gb then Scaled(sizeInBytes / Mb, MB)
    else if sizeInBytes >= Gb && sizeInBytes < Tb then Scaled(sizeInBytes / Gb, GB)
    else Scaled(sizeInBytes / Tb, TB)
  }

  // Reference definition: an ascending table of units, each with the lower
  // bound of its range; the chosen unit is the highest one whose lower bound
  // the input reaches.

  const Ladder: seq<SizeUnit> := [B, KB, MB, GB, TB]

  /** Smallest byte count shown in unit `u`; B starts at zero. */
  function LowerBound(u: SizeUnit): real
  {
    if u == B then 0.0 else Divisor(u)
  }

  /** The highest unit of the non-empty ascending `units` whose lower bound is at most `x`, or the lowest one. */
  function HighestReached(x: real, units: seq<SizeUnit>): (u: SizeUnit)
    requires |units| >= 1
    ensures u in units
  {
    if |units| == 1 || LowerBound(units[|units| - 1]) <= x then units[|units| - 1]
    else HighestReached(x, units[..|units| - 1])
  }

  function FormatByTable(x: real): FormattedSize
  {
    if x < 0.0 then NotAvailable
    else var u := HighestReached(x, Ladder); Scaled(x / Divisor(u), u)
  }

  /** The table lookup, unfolded over the five rows of the ladder. */
  lemma LadderChoice(x: real)
    ensures HighestReached(x, Ladder)
            == if x < Kb then B else if x < Mb then KB else if x < Gb then MB else if x < Tb then GB else TB
  {
    DivisorsAreThresholds();
    var l1, l2, l3, l4 := Ladder[..1], Ladder[..2], Ladder[..3], Ladder[..4];
    assert l1 == [B] && l2 == [B, KB] && l3 == [B, KB, MB] && l4 == [B, KB, MB, GB];
    assert l2[..1] == l1 && l3[..2] == l2 && l4[..3] == l3 && Ladder[..4] == l4;
    assert HighestReached(x, l1) == B;
    assert HighestReached(x, l2) == if Kb <= x then KB else B;
    assert HighestReached(x, l3) == if Mb <= x then MB else HighestReached(x, l2);
    assert HighestReached(x, l4) == if Gb <= x then GB else HighestReached(x, l3);
  }

  /** The branch ladder of `Strings.formatSize` agrees with the table on every input. */
  lemma FormatSizeMatchesTable(x: real)
    ensures FormatSize(x) == FormatByTable(x)
  {
    DivisorsAreThresholds();
    LadderChoice(x);
  }

  /**
   The six guards of the Java ladder, NA first, as written; the final
   `else` is read over the reals, where it means reaching the TB threshold.
   */
  predicate Guard(i: nat, x: real)
  {
    match i
    case 0 => x < 0.0
    case 1 => x >= 0.0 && x < Kb
    case 2 => x >= Kb && x < Mb
    case 3 => x >= Mb && x < Gb
    case 4 => x >= Gb && x < Tb
    case 5 => x >= Tb
    case _ => false
  }

  /** Index of the guard whose branch produced `r`. */
  function Branch(r: FormattedSize): nat
  {
    match r
    case NotAvailable => 0
    case Scaled(_, u) => 1 + Rank(u)
  }

  /**
   Every real input satisfies exactly one guard, and it is the guard of the
   branch `FormatSize` takes: no input is unhandled or handled twice.
   */
  lemma GuardsPartition(x: real)
    ensures Guard(Branch(FormatSize(x)), x)
    ensures forall i :: Guard(i, x) ==> i == Branch(FormatSize(x))
  {
  }

  /** A boundary value belongs to the upper unit. */
  lemma BoundariesBelongToUpperUnit()
    ensures FormatSize(0.0) == Scaled(0.0, B)
    ensures FormatSize(1023.0) == Scaled(1023.0, B)
    ensures FormatSize(1024.0) == Scaled(1.0, KB)
    ensures FormatSize(1048576.0) == Scaled(1.0, MB)
    ensures FormatSize(1073741824.0) == Scaled(1.0, GB)
    ensures FormatSize(1099511627776.0) == Scaled(1.0, TB)
    ensures FormatSize(-1.0) == NotAvailable
  {
  }

  /** A larger size never gets a smaller unit. */
  lemma FormatSizeMonotonic(x: real, y: real)
    requires 0.0 <= x <= y
    ensures Rank(FormatSize(x).unit) <= Rank(FormatSize(y).unit)
  {
  }
}
