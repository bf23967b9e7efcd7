/**
 * What both tab-header renderers decide for each tab, independent of the
 * markup they wrap it in, and the `join('')` that glues the fragments.
 */
module TabStrip {

  /** One piece of an anchor's visible content, in display order. */
  datatype Content = Svg(path: string) | Label(text: string)

  /**
   * The decisions a renderer makes for one tab: its link target, whether it
   * uses the highlighted class set, whether it carries the `ml-1` margin,
   * whether it is drawn as the square icon button, and what it shows inside.
   */
  datatype Anchor = Anchor(
    href: string,
    active: bool,
    hasMargin: bool,
    iconButton: bool,
    content: seq<Content>)

  predicate ShowsLabel(a: Anchor) {
    exists k :: 0 <= k < |a.content| && a.content[k].Label?
  }

  predicate ShowsSvg(a: Anchor) {
    exists k :: 0 <= k < |a.content| && a.content[k].Svg?
  }

  predicate Distinct<T(==)>(s: seq<T>) {
    forall i, j :: 0 <= i < j < |s| ==> s[i] != s[j]
  }

  /** The ids of a tab table, in table order, read with the table's own field accessor. */
  function Ids<T>(tabs: seq<T>, id: T -> string): (r: seq<string>)
    ensures |r| == |tabs| && forall i :: 0 <= i < |tabs| ==> r[i] == id(tabs[i])
  {
    seq(|tabs|, i requires 0 <= i < |tabs| => id(tabs[i]))
  }

  /** Number of anchors drawn with the highlighted class set. */
  function CountActive(anchors: seq<Anchor>): nat {
    if anchors == [] then 0
    else CountActive(anchors[..|anchors| - 1]) + (if anchors[|anchors| - 1].active then 1 else 0)
  }

  /**
   * When every anchor is highlighted exactly if its tab's id equals the
   * active id, and the ids are pairwise distinct, exactly one anchor is
   * highlighted if the active id names a tab and none otherwise.
   */
  lemma {:induction false} CountActiveByIds(anchors: seq<Anchor>, ids: seq<string>, activeTab: string)
    requires |anchors| == |ids|
    requires Distinct(ids)
    requires forall i :: 0 <= i < |anchors| ==> (anchors[i].active <==> ids[i] == activeTab)
    ensures CountActive(anchors) == if activeTab in ids then 1 else 0
  {
    if anchors != [] {
      var n := |anchors| - 1;
      var ids' := ids[..n];
      assert Distinct(ids');
      CountActiveByIds(anchors[..n], ids', activeTab);
      assert ids == ids' + [ids[n]];
      if ids[n] == activeTab {
        assert activeTab !in ids' by {
          forall i | 0 <= i < n ensures ids'[i] != activeTab {
            assert ids[i] != ids[n];
          }
        }
      }
    }
  }

  /** Two highlighted anchors are the same anchor, whatever the active id. */
  lemma AtMostOneActive(anchors: seq<Anchor>, ids: seq<string>, activeTab: string)
    requires |anchors| == |ids|
    requires Distinct(ids)
    requires forall i :: 0 <= i < |anchors| ==> (anchors[i].active <==> ids[i] == activeTab)
    ensures forall i, j :: 0 <= i < |anchors| && 0 <= j < |anchors| && anchors[i].active && anchors[j].active ==> i == j
  {
  }

  /** `parts.join('')`. */
  function Join(parts: seq<string>): string {
    if parts == [] then "" else Join(parts[..|parts| - 1]) + parts[|parts| - 1]
  }

  lemma {:induction false} JoinAppend(xs: seq<string>, ys: seq<string>)
    ensures Join(xs + ys) == Join(xs) + Join(ys)
  {
    if ys == [] {
      assert xs + ys == xs;
    } else {
      var n := |ys| - 1;
      assert (xs + ys)[..|xs + ys| - 1] == xs + ys[..n];
      assert (xs + ys)[|xs + ys| - 1] == ys[n];
      JoinAppend(xs, ys[..n]);
      calc {
        Join(xs + ys);
        Join(xs + ys[..n]) + ys[n];
        (Join(xs) + Join(ys[..n])) + ys[n];
        Join(xs) + (Join(ys[..n]) + ys[n]);
        Join(xs) + Join(ys);
      }
    }
  }

  /** Where the `i`th fragment starts in the joined text. */
  function Offset(parts: seq<string>, i: nat): nat
    requires i <= |parts|
  {
    |Join(parts[..i])|
  }

  /**
   * The joined text holds every fragment verbatim, in list order, one after
   * the other: fragment `i` occupies the characters from `Offset(parts, i)`
   * up to `Offset(parts, i + 1)`.
   */
  lemma {:induction false} JoinedInOrder(parts: seq<string>, i: nat)
    requires i < |parts|
    ensures Offset(parts, i + 1) == Offset(parts, i) + |parts[i]|
    ensures Offset(parts, i + 1) <= |Join(parts)|
    ensures Join(parts)[Offset(parts, i)..Offset(parts, i + 1)] == parts[i]
  {
    var pre, rest := parts[..i], parts[i + 1..];
    assert parts[..i + 1] == pre + [parts[i]];
    assert parts == pre + [parts[i]] + rest;
    JoinAppend(pre, [parts[i]]);
    assert Join([parts[i]]) == Join([]) + parts[i];
    JoinAppend(pre + [parts[i]], rest);
  }

  /** The middle of `lead + body + tail` is `body`. */
  lemma Sandwich(lead: string, body: string, tail: string)
    ensures lead <= lead + body + tail
    ensures (lead + body + tail)[|lead|..|lead| + |body|] == body
  {
    var r := lead + body + tail;
    assert r[..|lead|] == lead;
  }

  /** `lead + body + tail` opens with `lead` and closes with `tail`. */
  lemma Bracketed(lead: string, body: string, tail: string)
    ensures lead <= lead + body + tail
    ensures (lead + body + tail)[|lead + body + tail| - |tail|..] == tail
  {
    var r := lead + body + tail;
    assert r[..|lead|] == lead;
    assert r[|lead + body|..] == tail;
  }

  /** A slice of a slice is a slice of the whole. */
  lemma SliceOfSlice(s: string, from: nat, to: nat, lo: nat, hi: nat)
    requires from <= to <= |s| && lo <= hi <= to - from
    ensures s[from..to][lo..hi] == s[from + lo..from + hi]
  {
    var t := s[from..to];
    assert forall k :: 0 <= k < hi - lo ==> t[lo..hi][k] == t[lo + k] == s[from + lo + k];
  }

  /**
   * In `lead + Join(parts) + tail`, fragment `i` sits verbatim at
   * `|lead| + Offset(parts, i)`.
   */
  lemma PieceInPage(lead: string, parts: seq<string>, tail: string, i: nat)
    requires i < |parts|
    ensures var page := lead + Join(parts) + tail;
      var start := |lead| + Offset(parts, i);
      && start + |parts[i]| <= |page|
      && page[start..start + |parts[i]|] == parts[i]
  {
    var page := lead + Join(parts) + tail;
    JoinedInOrder(parts, i);
    Sandwich(lead, Join(parts), tail);
    SliceOfSlice(page, |lead|, |lead| + |Join(parts)|, Offset(parts, i), Offset(parts, i + 1));
  }
}
