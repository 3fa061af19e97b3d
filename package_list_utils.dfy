/**
 * Helpers of the package list: the "primary, first, +n" summary of the variants a
 * search targets, the full list of those variants, and the grouping of module variants
 * by the package types they accept.
 */
module PackageListUtils {
  import opened CoreData

  predicate IsDigit(c: char) {
    '0' <= c <= '9'
  }

  /** The decimal text of `n`, as string templates print an `Int`. */
  function NatToString(n: nat): (r: string)
    ensures |r| > 0
    ensures forall i :: 0 <= i < |r| ==> IsDigit(r[i])
    decreases n
  {
    var digit := [('0' as int + n % 10) as char];
    if n < 10 then digit else NatToString(n / 10) + digit
  }

  /** Reads a run of decimal digits back as a number. */
  function ParseNat(s: string): nat
    requires forall i :: 0 <= i < |s| ==> IsDigit(s[i])
  {
    if s == [] then 0
    else
      assert IsDigit(s[|s| - 1]);
      ParseNat(s[..|s| - 1]) * 10 + (s[|s| - 1] as int - '0' as int)
  }

  /** The count written in the summary reads back as the same number. */
  lemma {:induction false} NatToStringRoundTrip(n: nat)
    ensures ParseNat(NatToString(n)) == n
    decreases n
  {
    if n >= 10 {
      NatToStringRoundTrip(n / 10);
      var s := NatToString(n);
      assert s[..|s| - 1] == NatToString(n / 10);
    }
  }

  /** `buildVariantsText`: the primary variant, then ", first" and ", +k" for k further ones. */
  function BuildVariantsText(primaryVariantName: string, additionalVariants: seq<string>): (r: string)
  {
    var first := if |additionalVariants| > 0 then ", " + additionalVariants[0] else "";
    var more := if |additionalVariants| > 1 then ", +" + NatToString(|additionalVariants| - 1) else "";
    primaryVariantName + first + more
  }

  /** `compatibleVariants`: the primary variant followed by the additional ones. */
  function CompatibleVariants(primaryVariantName: string, additionalVariants: seq<string>): (r: seq<string>)
    ensures |r| == 1 + |additionalVariants|
    ensures r[0] == primaryVariantName && r[1..] == additionalVariants
  {
    [primaryVariantName] + additionalVariants
  }

  /**
   * The summary names the first two compatible variants and counts the rest: "+k"
   * appears iff there are more than two compatible variants, and k reads back as the
   * number of compatible variants left unnamed.
   */
  lemma VariantsTextSummarizes(primaryVariantName: string, additionalVariants: seq<string>)
    ensures var cv := CompatibleVariants(primaryVariantName, additionalVariants);
      var r := BuildVariantsText(primaryVariantName, additionalVariants);
      && (|cv| == 1 ==> r == cv[0])
      && (|cv| == 2 ==> r == cv[0] + ", " + cv[1])
      && (|cv| > 2 ==> exists k :: r == cv[0] + ", " + cv[1] + ", +" + k
                           && (forall i :: 0 <= i < |k| ==> IsDigit(k[i])) && ParseNat(k) == |cv| - 2)
  {
    var cv := CompatibleVariants(primaryVariantName, additionalVariants);
    var r := BuildVariantsText(primaryVariantName, additionalVariants);
    if |additionalVariants| == 0 {
      assert r == primaryVariantName + "" + "";
    } else if |additionalVariants| == 1 {
      assert cv[1] == additionalVariants[0];
      assert r == primaryVariantName + (", " + additionalVariants[0]) + "";
    } else {
      assert cv[1] == additionalVariants[0];
      var k := NatToString(|additionalVariants| - 1);
      NatToStringRoundTrip(|additionalVariants| - 1);
      assert r == primaryVariantName + (", " + additionalVariants[0]) + (", +" + k);
      assert r == cv[0] + ", " + cv[1] + ", +" + k;
    }
  }

  /** The variants whose package-type list is `types`, in their original order. */
  function VariantsWithTypes(variants: seq<Variant>, types: seq<PackagesType>): (r: seq<Variant>)
    ensures forall v :: v in r <==> v in variants && v.compatiblePackageTypes == types
  {
    if variants == [] then []
    else
      var rest := VariantsWithTypes(variants[1..], types);
      assert forall v :: v in variants <==> v == variants[0] || v in variants[1..];
      if variants[0].compatiblePackageTypes == types then [variants[0]] + rest else rest
  }

  /** Selecting from consecutive runs of variants gives the selections one after the other: order is kept. */
  lemma {:induction false} VariantsWithTypesAppend(a: seq<Variant>, b: seq<Variant>, types: seq<PackagesType>)
    ensures VariantsWithTypes(a + b, types) == VariantsWithTypes(a, types) + VariantsWithTypes(b, types)
  {
    if a == [] {
      assert a + b == b;
    } else {
      assert (a + b)[0] == a[0];
      assert (a + b)[1..] == a[1..] + b;
      VariantsWithTypesAppend(a[1..], b, types);
    }
  }

  /** `groupByCompatiblePackageTypes`: the variants keyed by their package-type list. */
  function GroupByCompatiblePackageTypes(variants: seq<Variant>): map<seq<PackagesType>, seq<Variant>> {
    map v | v in variants :: v.compatiblePackageTypes := VariantsWithTypes(variants, v.compatiblePackageTypes)
  }

  /** The grouping is a partition: every variant sits in exactly the group of its own types, and no group is empty. */
  lemma GroupingPartitions(variants: seq<Variant>)
    ensures var g := GroupByCompatiblePackageTypes(variants);
      && (forall v :: v in variants ==> v.compatiblePackageTypes in g && v in g[v.compatiblePackageTypes])
      && (forall k, v :: k in g && v in g[k] ==> v in variants && v.compatiblePackageTypes == k)
      && (forall k :: k in g ==> g[k] != [])
  {
    var g := GroupByCompatiblePackageTypes(variants);
    forall k | k in g ensures g[k] != [] {
      var v :| v in variants && v.compatiblePackageTypes == k;
      assert v in g[k];
    }
  }
}
