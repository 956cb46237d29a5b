/**
 * The facet lists that the filter panel derives from its `categories` property:
 * the distinct top-level categories, and the distinct sub-categories of one
 * top-level category.
 */
module Facets {
  import opened Optional
  import opened SetOrder

  /** One element of `categories`: a top-level label and an optional sub-label. */
  datatype Category = Category(lvl0: string, lvl1: Option<string>)

  /** `categories.map((cat) => cat.lvl0)`, position by position. */
  function Lvl0s(cats: seq<Category>): (r: seq<string>)
    ensures |r| == |cats|
    ensures forall k :: 0 <= k < |cats| ==> r[k] == cats[k].lvl0
  {
    seq(|cats|, k requires 0 <= k < |cats| => cats[k].lvl0)
  }

  /**
   * `Array.from(new Set(categories.map((cat) => cat.lvl0)))`: one button per
   * top-level label. No `filter(Boolean)` is applied here, so an empty label
   * is listed too.
   */
  function TopLevelCategories(cats: seq<Category>): (r: seq<string>)
    ensures Distinct(r)
    ensures forall i :: 0 <= i < |r| ==> r[i] in Lvl0s(cats)
    ensures forall k :: 0 <= k < |cats| ==> cats[k].lvl0 in r
  {
    Dedupe(Lvl0s(cats))
  }

  /** Every top-level label of the input is listed exactly once. */
  lemma TopLevelExactlyOnce(cats: seq<Category>, k: nat)
    requires k < |cats|
    ensures multiset(TopLevelCategories(cats))[cats[k].lvl0] == 1
  {
    DedupeExactlyOnce(Lvl0s(cats), cats[k].lvl0);
  }

  /**
   * Top-level labels are listed in the order of their first occurrence:
   * `FirstIndex(Lvl0s(cats), x)` is the position of the first entry whose
   * top-level label is `x`.
   */
  lemma TopLevelOrder(cats: seq<Category>, i: nat, j: nat)
    requires i < j < |TopLevelCategories(cats)|
    ensures FirstIndex(Lvl0s(cats), TopLevelCategories(cats)[i]) < FirstIndex(Lvl0s(cats), TopLevelCategories(cats)[j])
  {
    DedupeOrder(Lvl0s(cats), i, j);
  }

  /** The top-level list is the only one with the three properties above. */
  lemma TopLevelUnique(cats: seq<Category>, r: seq<string>)
    requires ListsFirstOccurrences(Lvl0s(cats), r)
    ensures r == TopLevelCategories(cats)
  {
    DedupeUnique(Lvl0s(cats), r);
  }

  /**
   * `categories.filter((cat) => cat.lvl0 === parent).map((cat) => cat.lvl1).filter(Boolean)`,
   * the three passes fused into one: the sub-labels of `parent` that are
   * neither absent nor empty, in input order, repeats included.
   */
  function SubLabels(cats: seq<Category>, parent: string): (r: seq<string>)
    ensures forall x :: x in r <==> x != "" && Category(parent, Some(x)) in cats
  {
    if cats == [] then []
    else
      var init, c := cats[..|cats| - 1], cats[|cats| - 1];
      assert cats == init + [c];
      SubLabels(init, parent) + (if c.lvl0 == parent && c.lvl1.Some? && c.lvl1.value != "" then [c.lvl1.value] else [])
  }

  /** `Array.from(new Set(...))` over `SubLabels`: the sub-category buttons under `parent`. */
  function SubCategories(cats: seq<Category>, parent: string): (r: seq<string>)
    ensures Distinct(r)
    ensures forall x :: x in r <==> x != "" && Category(parent, Some(x)) in cats
  {
    var labels := SubLabels(cats, parent);
    assert forall x :: x in Dedupe(labels) <==> x in labels by {
      forall x ensures x in Dedupe(labels) <==> x in labels {
        if x in labels {
          var k :| 0 <= k < |labels| && labels[k] == x;
        }
      }
    }
    Dedupe(labels)
  }

  /** Every sub-category present under `parent` is listed exactly once. */
  lemma SubCategoriesExactlyOnce(cats: seq<Category>, parent: string, x: string)
    requires x != "" && Category(parent, Some(x)) in cats
    ensures multiset(SubCategories(cats, parent))[x] == 1
  {
    DedupeExactlyOnce(SubLabels(cats, parent), x);
  }

  /**
   * `SubLabels` keeps the relative order of first entries: a label that first
   * shows up earlier in the fused list comes from an earlier first entry of `cats`.
   */
  lemma {:induction false} SubLabelsOrder(cats: seq<Category>, parent: string, x: string, y: string)
    requires x in SubLabels(cats, parent) && y in SubLabels(cats, parent)
    requires FirstIndex(SubLabels(cats, parent), x) < FirstIndex(SubLabels(cats, parent), y)
    ensures FirstIndex(cats, Category(parent, Some(x))) < FirstIndex(cats, Category(parent, Some(y)))
  {
    var n := |cats|;
    var init, c := cats[..n - 1], cats[n - 1];
    assert cats == init + [c];
    var l := SubLabels(init, parent);
    var cx, cy := Category(parent, Some(x)), Category(parent, Some(y));
    if !(c.lvl0 == parent && c.lvl1.Some? && c.lvl1.value != "") {
      assert SubLabels(cats, parent) == l;
      SubLabelsOrder(init, parent, x, y);
      FirstIndexPrefix(cats, n - 1, cx);
      FirstIndexPrefix(cats, n - 1, cy);
    } else {
      var v := c.lvl1.value;
      assert SubLabels(cats, parent) == l + [v];
      if x in l && y in l {
        FirstIndexPrefix(l + [v], |l|, x);
        FirstIndexPrefix(l + [v], |l|, y);
        assert (l + [v])[..|l|] == l;
        SubLabelsOrder(init, parent, x, y);
        FirstIndexPrefix(cats, n - 1, cx);
        FirstIndexPrefix(cats, n - 1, cy);
      } else if y !in l {
        assert y == v && c == cy && cy !in init;
        FirstIndexAt(cats, cy, n - 1);
        FirstIndexPrefix(cats, n - 1, cx);
      }
    }
  }

  /**
   * Sub-categories are listed in the order of their first occurrence: the
   * first entry of `cats` naming an earlier button comes before the first
   * entry naming a later one.
   */
  lemma SubCategoriesOrder(cats: seq<Category>, parent: string, i: nat, j: nat)
    requires i < j < |SubCategories(cats, parent)|
    ensures Category(parent, Some(SubCategories(cats, parent)[i])) in cats
    ensures Category(parent, Some(SubCategories(cats, parent)[j])) in cats
    ensures FirstIndex(cats, Category(parent, Some(SubCategories(cats, parent)[i])))
          < FirstIndex(cats, Category(parent, Some(SubCategories(cats, parent)[j])))
  {
    var labels := SubLabels(cats, parent);
    var r := SubCategories(cats, parent);
    assert r[i] in r && r[j] in r;
    DedupeOrder(labels, i, j);
    SubLabelsOrder(cats, parent, r[i], r[j]);
  }

  /** `r` holds the sub-categories of `parent`, each once, in first-occurrence order in `cats`. */
  ghost predicate ListsSubCategories(cats: seq<Category>, parent: string, r: seq<string>)
  {
    && (forall x :: x in r <==> x != "" && Category(parent, Some(x)) in cats)
    && Distinct(r)
    && (forall i, j :: 0 <= i < j < |r| ==>
          && Category(parent, Some(r[i])) in cats
          && Category(parent, Some(r[j])) in cats
          && FirstIndex(cats, Category(parent, Some(r[i]))) < FirstIndex(cats, Category(parent, Some(r[j]))))
  }

  /** The sub-category list has the properties above. */
  lemma SubCategoriesListed(cats: seq<Category>, parent: string)
    ensures ListsSubCategories(cats, parent, SubCategories(cats, parent))
  {
    forall i, j | 0 <= i < j < |SubCategories(cats, parent)|
      ensures Category(parent, Some(SubCategories(cats, parent)[i])) in cats
      ensures Category(parent, Some(SubCategories(cats, parent)[j])) in cats
      ensures FirstIndex(cats, Category(parent, Some(SubCategories(cats, parent)[i])))
            < FirstIndex(cats, Category(parent, Some(SubCategories(cats, parent)[j])))
    {
      SubCategoriesOrder(cats, parent, i, j);
    }
  }

  /** The sub-category list is the only one with the properties above. */
  lemma SubCategoriesUnique(cats: seq<Category>, parent: string, r: seq<string>)
    requires ListsSubCategories(cats, parent, r)
    ensures r == SubCategories(cats, parent)
  {
    var labels := SubLabels(cats, parent);
    forall i, j | 0 <= i < j < |r|
      ensures r[i] in labels && r[j] in labels
      ensures FirstIndex(labels, r[i]) < FirstIndex(labels, r[j])
    {
      assert r[i] in r && r[j] in r;
      if FirstIndex(labels, r[j]) < FirstIndex(labels, r[i]) {
        SubLabelsOrder(cats, parent, r[j], r[i]);
      }
    }
    forall k | 0 <= k < |labels|
      ensures labels[k] in r
    {
      assert labels[k] in labels;
    }
    forall k | 0 <= k < |r|
      ensures r[k] in labels
    {
      assert r[k] in r;
    }
    DedupeUnique(labels, r);
  }

}
