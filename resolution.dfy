/**
 * The transcode resolution ladder: six entries in ascending width, the
 * entries a source of a given size can be encoded to, and their display
 * names.
 */
module Resolutions {
  import opened Wrappers
  import opened Strings

  datatype Resolution = RES_480P | RES_720P | RES_1080P | RES_1440P | RES_2160P | RES_4320P {
    function Width(): int {
      match this
      case RES_480P => 854
      case RES_720P => 1280
      case RES_1080P => 1920
      case RES_1440P => 2560
      case RES_2160P => 3840
      case RES_4320P => 7680
    }

    function Height(): int {
      match this
      case RES_480P => 480
      case RES_720P => 720
      case RES_1080P => 1080
      case RES_1440P => 1440
      case RES_2160P => 2160
      case RES_4320P => 4320
    }

    /** The enum constant's name */
    function Name(): string {
      match this
      case RES_480P => "RES_480P"
      case RES_720P => "RES_720P"
      case RES_1080P => "RES_1080P"
      case RES_1440P => "RES_1440P"
      case RES_2160P => "RES_2160P"
      case RES_4320P => "RES_4320P"
    }
  }

  /** `Resolution.entries`, in declaration order */
  const Entries: seq<Resolution> := [RES_480P, RES_720P, RES_1080P, RES_1440P, RES_2160P, RES_4320P]

  function Max(a: int, b: int): int { if a >= b then a else b }

  /** `entries.filter { it.width <= max }` over any list of entries */
  function FilterWidthAtMost(rs: seq<Resolution>, max: int): (r: seq<Resolution>)
    ensures |r| <= |rs|
    ensures forall x :: x in r <==> x in rs && x.Width() <= max
  {
    if |rs| == 0 then []
    else
      var rest := FilterWidthAtMost(rs[1..], max);
      assert forall x :: x in rs <==> x == rs[0] || x in rs[1..];
      if rs[0].Width() <= max then [rs[0]] + rest else rest
  }

  /** `getLowerResolutions(width, height)` */
  function GetLowerResolutions(width: int, height: int): (r: seq<Resolution>)
    ensures forall x :: x in r <==> x.Width() <= Max(width, height)
  {
    FilterWidthAtMost(Entries, Max(width, height))
  }

  /** How many leading entries of `rs` are no wider than `max` */
  function LeadingAtMost(rs: seq<Resolution>, max: int): (n: nat)
    ensures n <= |rs|
  {
    if |rs| == 0 || rs[0].Width() > max then 0 else 1 + LeadingAtMost(rs[1..], max)
  }

  predicate Ascending(rs: seq<Resolution>) {
    forall i, j :: 0 <= i < j < |rs| ==> rs[i].Width() < rs[j].Width()
  }

  lemma EntriesAscend()
    ensures Ascending(Entries)
  {
  }

  /** Filtering a list of ascending widths keeps a prefix of it. */
  lemma {:induction false} FilterAscendingIsPrefix(rs: seq<Resolution>, max: int)
    requires Ascending(rs)
    ensures FilterWidthAtMost(rs, max) == rs[..LeadingAtMost(rs, max)]
  {
    if |rs| > 0 {
      assert Ascending(rs[1..]);
      FilterAscendingIsPrefix(rs[1..], max);
      if rs[0].Width() > max {
        var r := FilterWidthAtMost(rs, max);
        if |r| > 0 {
          assert false;
        }
      } else {
        assert [rs[0]] + rs[1..][..LeadingAtMost(rs[1..], max)] == rs[..LeadingAtMost(rs, max)];
      }
    }
  }

  /** Raising the bound never shortens the leading run. */
  lemma {:induction false} LeadingAtMostMonotone(rs: seq<Resolution>, m1: int, m2: int)
    requires m1 <= m2
    ensures LeadingAtMost(rs, m1) <= LeadingAtMost(rs, m2)
  {
    if |rs| > 0 && rs[0].Width() <= m1 {
      LeadingAtMostMonotone(rs[1..], m1, m2);
    }
  }

  /**
   * The lower resolutions are a prefix of the entry list, in enum order:
   * exactly the leading entries no wider than `max(width, height)`.
   */
  lemma LowerResolutionsArePrefix(width: int, height: int)
    ensures GetLowerResolutions(width, height) == Entries[..LeadingAtMost(Entries, Max(width, height))]
  {
    EntriesAscend();
    FilterAscendingIsPrefix(Entries, Max(width, height));
  }

  /** Swapping width and height changes nothing. */
  lemma LowerResolutionsSymmetric(width: int, height: int)
    ensures GetLowerResolutions(width, height) == GetLowerResolutions(height, width)
  {
  }

  /** A larger source never yields fewer entries, and the smaller list is a prefix of the larger. */
  lemma LowerResolutionsMonotone(w1: int, h1: int, w2: int, h2: int)
    requires Max(w1, h1) <= Max(w2, h2)
    ensures |GetLowerResolutions(w1, h1)| <= |GetLowerResolutions(w2, h2)|
    ensures GetLowerResolutions(w1, h1) <= GetLowerResolutions(w2, h2)
  {
    LowerResolutionsArePrefix(w1, h1);
    LowerResolutionsArePrefix(w2, h2);
    LeadingAtMostMonotone(Entries, Max(w1, h1), Max(w2, h2));
  }

  /** A source narrower than 854 pixels on both sides gets no resolutions at all. */
  lemma SmallSourceHasNone(width: int, height: int)
    requires Max(width, height) < 854
    ensures GetLowerResolutions(width, height) == []
  {
    LowerResolutionsArePrefix(width, height);
  }

  /** `getDisplayName()`: two special cases, otherwise the name without `RES_`, lower-cased */
  function DisplayName(r: Resolution): string {
    if r == RES_2160P then "4k"
    else if r == RES_4320P then "8k"
    else Lower(RemoveAll(r.Name(), "RES_"))
  }

  lemma RemovePrefixOnce(rest: string)
    requires |rest| >= 1 && !Contains(rest, "RES_")
    ensures RemoveAll("RES_" + rest, "RES_") == rest
  {
    var s := "RES_" + rest;
    assert s[..4] == "RES_";
    assert s[4..] == rest;
    RemoveAllAbsent(rest, "RES_");
  }

  lemma NoResIn(rest: string)
    requires |rest| <= 5 && forall i :: 0 <= i < |rest| ==> rest[i] != 'R'
    ensures !Contains(rest, "RES_")
  {
    if Contains(rest, "RES_") {
      IndexOfFound(rest, "RES_", 0);
      OccursHead(rest, "RES_", IndexOf(rest, "RES_", 0));
      assert false;
    }
  }

  lemma PlainDisplayName(r: Resolution, rest: string)
    requires r != RES_2160P && r != RES_4320P
    requires r.Name() == "RES_" + rest && |rest| >= 1
    requires |rest| <= 5 && forall i :: 0 <= i < |rest| ==> rest[i] != 'R'
    ensures DisplayName(r) == Lower(rest)
  {
    NoResIn(rest);
    RemovePrefixOnce(rest);
  }

  lemma LowerResolutionName(r: Resolution, rest: string, lower: string)
    requires r != RES_2160P && r != RES_4320P
    requires r.Name() == "RES_" + rest && |rest| >= 1
    requires |rest| <= 5 && forall i :: 0 <= i < |rest| ==> rest[i] != 'R'
    requires |lower| == |rest| && forall i :: 0 <= i < |rest| ==> lower[i] == LowerChar(rest[i])
    ensures DisplayName(r) == lower
  {
    PlainDisplayName(r, rest);
  }

  /** The six display names */
  lemma DisplayNames()
    ensures DisplayName(RES_480P) == "480p"
    ensures DisplayName(RES_720P) == "720p"
    ensures DisplayName(RES_1080P) == "1080p"
    ensures DisplayName(RES_1440P) == "1440p"
    ensures DisplayName(RES_2160P) == "4k"
    ensures DisplayName(RES_4320P) == "8k"
  {
    DisplayName480();
    DisplayName720();
    DisplayName1080();
    DisplayName1440();
  }

  lemma DisplayName480() ensures DisplayName(RES_480P) == "480p" {
    LowerResolutionName(RES_480P, "480P", "480p");
  }

  lemma DisplayName720() ensures DisplayName(RES_720P) == "720p" {
    LowerResolutionName(RES_720P, "720P", "720p");
  }

  lemma DisplayName1080() ensures DisplayName(RES_1080P) == "1080p" {
    LowerResolutionName(RES_1080P, "1080P", "1080p");
  }

  lemma DisplayName1440() ensures DisplayName(RES_1440P) == "1440p" {
    LowerResolutionName(RES_1440P, "1440P", "1440p");
  }

  /** No two entries share a display name. */
  lemma DisplayNamesDistinct(a: Resolution, b: Resolution)
    ensures DisplayName(a) == DisplayName(b) ==> a == b
  {
    DisplayNames();
  }

  /** `first { it.getDisplayName() == name }` over a list of entries: the index found, `None` where `first` throws */
  function FindByName(rs: seq<Resolution>, name: string): (r: Option<nat>)
    ensures r.Some? ==> r.value < |rs| && DisplayName(rs[r.value]) == name
    ensures r.Some? ==> forall i :: 0 <= i < r.value ==> DisplayName(rs[i]) != name
    ensures r.None? ==> forall i :: 0 <= i < |rs| ==> DisplayName(rs[i]) != name
  {
    var names := seq(|rs|, i requires 0 <= i < |rs| => DisplayName(rs[i]));
    assert forall i :: 0 <= i < |rs| ==> DisplayName(rs[i]) == names[i];
    FirstIndex(names, name)
  }

  /** The first position of `x` in `xs`, if any */
  function FirstIndex(xs: seq<string>, x: string): (r: Option<nat>)
    ensures r.Some? ==> r.value < |xs| && xs[r.value] == x
    ensures r.Some? ==> forall i :: 0 <= i < r.value ==> xs[i] != x
    ensures r.None? ==> forall i :: 0 <= i < |xs| ==> xs[i] != x
  {
    if |xs| == 0 then None
    else if xs[0] == x then Some(0)
    else
      var t := FirstIndex(xs[1..], x);
      if t.Some? then Some(t.value + 1) else None
  }

  /** Lookup by display name in a list without repeated entries finds the only match. */
  lemma FindByNameUnique(rs: seq<Resolution>, name: string, j: nat)
    requires j < |rs| && DisplayName(rs[j]) == name
    requires forall i, k :: 0 <= i < k < |rs| ==> rs[i] != rs[k]
    ensures FindByName(rs, name) == Some(j)
  {
    var r := FindByName(rs, name);
    assert r.Some?;
    DisplayNamesDistinct(rs[r.value], rs[j]);
  }

  /** Looking an entry up by its own display name finds that entry. */
  lemma FindEntryByName(r: Resolution)
    ensures var f := FindByName(Entries, DisplayName(r)); f.Some? && Entries[f.value] == r
  {
    var j := match r
      case RES_480P => 0
      case RES_720P => 1
      case RES_1080P => 2
      case RES_1440P => 3
      case RES_2160P => 4
      case RES_4320P => 5;
    EntriesDistinct();
    assert Entries[j] == r;
    FindByNameUnique(Entries, DisplayName(r), j);
  }

  lemma EntriesDistinct()
    ensures forall i, k :: 0 <= i < k < |Entries| ==> Entries[i] != Entries[k]
  {
  }
}
