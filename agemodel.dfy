/**
 * The bookkeeping of Model_Test.py around the network: the scan ID of each slice
 * file, the grouping of the per-slice predictions by scan ID, and the single
 * `np.median` that gives the subject's predicted age. The network's predictions
 * are an input, one exact value per file, in the generator's file order.
 *
 * `np.median` is given the list of per-scan prediction columns. When every
 * column has the same length numpy stacks them into one array and takes the
 * median of all predictions pooled; columns of different lengths cannot be
 * stacked and raise; an empty list gives NaN.
 */
module AgeModel {
  import opened Maybe
  import Median

  /** The marker `_T1`, which ends a scan ID, begins at position `j` of `s`. */
  predicate MarkerAt(s: string, j: nat) {
    j + 3 <= |s| && s[j] == '_' && s[j + 1] == 'T' && s[j + 2] == '1'
  }

  /** `x.split('_T1')[0]` */
  function ScanId(name: string): string {
    if MarkerAt(name, 0) || name == [] then ""
    else [name[0]] + ScanId(name[1..])
  }

  /** The scan ID is the file name up to the first `_T1`, or all of it when there is none. */
  lemma {:induction false} ScanIdSpec(name: string)
    ensures ScanId(name) <= name
    ensures forall j :: 0 <= j < |ScanId(name)| ==> !MarkerAt(name, j)
    ensures |ScanId(name)| < |name| ==> MarkerAt(name, |ScanId(name)|)
  {
    if !MarkerAt(name, 0) && name != [] {
      ScanIdSpec(name[1..]);
      assert forall j: nat :: 1 <= j ==> (MarkerAt(name, j) <==> MarkerAt(name[1..], j - 1));
    }
  }

  /** A file name without `_T1` is its own scan ID. */
  lemma ScanIdWhole(name: string)
    requires forall j :: 0 <= j < |name| ==> !MarkerAt(name, j)
    ensures ScanId(name) == name
  {
    ScanIdSpec(name);
  }

  /** A prefix free of `_T1` that ends at a `_T1` or at the end of the name is the scan ID. */
  lemma ScanIdUnique(name: string, k: nat)
    requires k <= |name|
    requires forall j :: 0 <= j < k ==> !MarkerAt(name, j)
    requires k == |name| || MarkerAt(name, k)
    ensures ScanId(name) == name[..k]
  {
    ScanIdSpec(name);
    assert |ScanId(name)| == k;
  }

  /** The errors Model_Test.py raises. */
  datatype AgeError =
    | NoDash(index: nat)    // IndexError: `x.split('-')[1]` on a name without '-'
    | LengthMismatch        // ValueError: predictions and IDs differ in number
    | RaggedGroups          // ValueError: the prediction columns cannot be stacked

  /** `predicty1`: a number, or NaN for `np.median([])`. */
  datatype Estimate = Age(years: real) | NotANumber

  /** `out_data`: a single row under the columns `ID` and `Pred_Age`. */
  datatype AgeReport = AgeReport(id: string, predAge: Estimate)

  /** The index of the first name without a '-', if any. */
  function FirstWithoutDash(names: seq<string>): (r: Option<nat>)
    ensures r.None? <==> forall i :: 0 <= i < |names| ==> '-' in names[i]
    ensures r.Some? ==> r.value < |names| && '-' !in names[r.value]
                        && forall i :: 0 <= i < r.value ==> '-' in names[i]
    decreases |names|
  {
    if names == [] then None
    else
      var earlier := FirstWithoutDash(names[..|names| - 1]);
      if earlier.Some? then earlier
      else if '-' !in names[|names| - 1] then Some(|names| - 1)
      else None
  }

  /** The scan IDs of `names`, in order. */
  function Ids(names: seq<string>): seq<string> {
    seq(|names|, i requires 0 <= i < |names| => ScanId(names[i]))
  }

  /** The loop over `test_generator.filenames` that fills `IDlist`. */
  method ParseIds(names: seq<string>) returns (r: Result<seq<string>, AgeError>)
    ensures FirstWithoutDash(names).Some? ==> r == Err(NoDash(FirstWithoutDash(names).value))
    ensures FirstWithoutDash(names).None? ==> r == Ok(Ids(names))
  {
    var ids: seq<string> := [];
    for i := 0 to |names|
      invariant ids == Ids(names[..i])
      invariant forall k :: 0 <= k < i ==> '-' in names[k]
    {
      if '-' !in names[i] {
        return Err(NoDash(i));
      }
      assert Ids(names[..i + 1]) == Ids(names[..i]) + [ScanId(names[i])];
      ids := ids + [ScanId(names[i])];
    }
    assert names[..|names|] == names;
    r := Ok(ids);
  }

  // ---------------------------------------------------------------------------
  // Grouping

  /** `prediction_data[prediction_data['ID'] == key]['Prediction']`: the predictions of one scan, in order. */
  function GroupOf(ids: seq<string>, preds: seq<real>, key: string): seq<real>
    requires |ids| == |preds|
    decreases |ids|
  {
    if ids == [] then []
    else
      var m := |ids| - 1;
      GroupOf(ids[..m], preds[..m], key) + (if ids[m] == key then [preds[m]] else [])
  }

  /** The loop over `IDset`, in whatever order the set is listed. */
  method GroupPredictions(ids: seq<string>, preds: seq<real>) returns (keys: seq<string>, groups: seq<seq<real>>)
    requires |ids| == |preds|
    ensures forall i, j :: 0 <= i < j < |keys| ==> keys[i] != keys[j]
    ensures forall k :: k in keys <==> k in ids
    ensures |groups| == |keys| && forall j :: 0 <= j < |keys| ==> groups[j] == GroupOf(ids, preds, keys[j])
  {
    var remaining := set k | k in ids;
    keys, groups := [], [];
    while remaining != {}
      invariant forall i, j :: 0 <= i < j < |keys| ==> keys[i] != keys[j]
      invariant forall k :: k in keys ==> k in ids && k !in remaining
      invariant forall k :: k in ids ==> k in keys || k in remaining
      invariant forall k :: k in remaining ==> k in ids
      invariant |groups| == |keys| && forall j :: 0 <= j < |keys| ==> groups[j] == GroupOf(ids, preds, keys[j])
      decreases |remaining|
    {
      var x :| x in remaining;
      keys := keys + [x];
      groups := groups + [GroupOf(ids, preds, x)];
      remaining := remaining - {x};
    }
  }

  /** Every column has the same length, so numpy can stack them. */
  predicate Balanced(groups: seq<seq<real>>) {
    forall i, j :: 0 <= i < |groups| && 0 <= j < |groups| ==> |groups[i]| == |groups[j]|
  }

  /** Every scan ID occurs equally often. */
  predicate EqualCounts(ids: seq<string>) {
    forall i, j :: 0 <= i < |ids| && 0 <= j < |ids| ==> multiset(ids)[ids[i]] == multiset(ids)[ids[j]]
  }

  function Flatten(groups: seq<seq<real>>): seq<real> {
    if groups == [] then [] else groups[0] + Flatten(groups[1..])
  }

  /** `np.median(final_prediction)` */
  function NpMedian(groups: seq<seq<real>>): Result<Estimate, AgeError> {
    if groups == [] then Ok(NotANumber)
    else if !Balanced(groups) then Err(RaggedGroups)
    else if Flatten(groups) == [] then Ok(NotANumber)
    else Ok(Age(Median.Median(Flatten(groups))))
  }

  /**
   * What the script computes, stated without the grouping: a name without a
   * '-' raises; predictions must match the names one to one; with no names the
   * age is NaN; when some scan has more slices than another the columns cannot
   * be stacked; otherwise the age is the median of all predictions.
   */
  function ExpectedReport(names: seq<string>, preds: seq<real>, subject: string): Result<AgeReport, AgeError> {
    match FirstWithoutDash(names)
    case Some(i) => Err(NoDash(i))
    case None =>
      if |preds| != |names| then Err(LengthMismatch)
      else if names == [] then Ok(AgeReport(subject, NotANumber))
      else if !EqualCounts(Ids(names)) then Err(RaggedGroups)
      else Ok(AgeReport(subject, Age(Median.Median(preds))))
  }

  /** Model_Test.py from the file names and the predictions to the output row. */
  method PredictAge(names: seq<string>, preds: seq<real>, subject: string) returns (r: Result<AgeReport, AgeError>)
    ensures r == ExpectedReport(names, preds, subject)
  {
    var parsed := ParseIds(names);
    if parsed.Err? {
      return Err(parsed.error);
    }
    var ids := parsed.value;
    if |preds| != |ids| {
      return Err(LengthMismatch);
    }
    var keys, groups := GroupPredictions(ids, preds);
    GroupsCoverPredictions(ids, preds, keys, groups);
    GroupsBalanced(ids, preds, keys, groups);
    var m := NpMedian(groups);
    if m.Err? {
      return Err(m.error);
    }
    if ids != [] {
      assert keys != [] by { assert ids[0] in keys; }
      assert Flatten(groups) != [] by { assert |Flatten(groups)| == |multiset(preds)| == |preds|; }
      Median.MedianPermutation(Flatten(groups), preds);
    }
    r := Ok(AgeReport(subject, m.value));
  }

  // ---------------------------------------------------------------------------
  // Why the grouping does not matter

  /** The predictions of the columns for `keys`, as one multiset. */
  function GroupsMultiset(ids: seq<string>, preds: seq<real>, keys: seq<string>): multiset<real>
    requires |ids| == |preds|
  {
    if keys == [] then multiset{} else multiset(GroupOf(ids, preds, keys[0])) + GroupsMultiset(ids, preds, keys[1..])
  }

  /** Adding one more prediction adds it to the column of its ID, when that ID is among the keys. */
  lemma {:induction false} GroupsMultisetSnoc(ids: seq<string>, preds: seq<real>, keys: seq<string>, a: string, p: real)
    requires |ids| == |preds|
    requires forall i, j :: 0 <= i < j < |keys| ==> keys[i] != keys[j]
    ensures GroupsMultiset(ids + [a], preds + [p], keys)
            == GroupsMultiset(ids, preds, keys) + (if a in keys then multiset{p} else multiset{})
  {
    if keys != [] {
      var k0, rest := keys[0], keys[1..];
      var ids', preds' := ids + [a], preds + [p];
      DistinctTail(keys);
      GroupOfSnoc(ids, preds, k0, a, p);
      GroupsMultisetSnoc(ids, preds, rest, a, p);
      Combine(multiset(GroupOf(ids', preds', k0)), multiset(GroupOf(ids, preds, k0)),
              GroupsMultiset(ids', preds', rest), GroupsMultiset(ids, preds, rest), p, a == k0, a in rest);
    }
  }

  /** Adding `p` to at most one of two parts adds it to their union. */
  lemma Combine(head': multiset<real>, head: multiset<real>, tail': multiset<real>, tail: multiset<real>,
                p: real, inHead: bool, inTail: bool)
    requires head' == head + (if inHead then multiset{p} else multiset{})
    requires tail' == tail + (if inTail then multiset{p} else multiset{})
    requires !(inHead && inTail)
    ensures head' + tail' == (head + tail) + (if inHead || inTail then multiset{p} else multiset{})
  {
  }

  /** The tail of a sequence of distinct keys is distinct and lacks the head. */
  lemma DistinctTail(keys: seq<string>)
    requires keys != [] && forall i, j :: 0 <= i < j < |keys| ==> keys[i] != keys[j]
    ensures forall i, j :: 0 <= i < j < |keys[1..]| ==> keys[1..][i] != keys[1..][j]
    ensures keys[0] !in keys[1..]
    ensures forall x :: x in keys <==> x == keys[0] || x in keys[1..]
  {
    var rest := keys[1..];
    forall i, j | 0 <= i < j < |rest| ensures rest[i] != rest[j] {
      assert rest[i] == keys[i + 1] && rest[j] == keys[j + 1];
    }
    forall i | 0 <= i < |rest| ensures rest[i] != keys[0] {
      assert rest[i] == keys[i + 1];
    }
    assert keys == [keys[0]] + rest;
  }

  /** A further prediction joins the column of its own ID, at the end. */
  lemma GroupOfSnoc(ids: seq<string>, preds: seq<real>, key: string, a: string, p: real)
    requires |ids| == |preds|
    ensures GroupOf(ids + [a], preds + [p], key) == GroupOf(ids, preds, key) + (if a == key then [p] else [])
  {
    var ids', preds' := ids + [a], preds + [p];
    assert ids'[..|ids|] == ids && preds'[..|ids|] == preds;
  }

  /** Columns for distinct keys that cover every ID hold every prediction exactly once. */
  lemma {:induction false} GroupsMultisetAll(ids: seq<string>, preds: seq<real>, keys: seq<string>)
    requires |ids| == |preds|
    requires forall i, j :: 0 <= i < j < |keys| ==> keys[i] != keys[j]
    requires forall k :: k in ids ==> k in keys
    ensures GroupsMultiset(ids, preds, keys) == multiset(preds)
    decreases |ids|
  {
    if ids == [] {
      GroupsMultisetEmpty(keys);
    } else {
      var m := |ids| - 1;
      assert ids == ids[..m] + [ids[m]] && preds == preds[..m] + [preds[m]];
      GroupsMultisetAll(ids[..m], preds[..m], keys);
      GroupsMultisetSnoc(ids[..m], preds[..m], keys, ids[m], preds[m]);
    }
  }

  lemma {:induction false} GroupsMultisetEmpty(keys: seq<string>)
    ensures GroupsMultiset([], [], keys) == multiset{}
  {
    if keys != [] {
      GroupsMultisetEmpty(keys[1..]);
    }
  }

  lemma {:induction false} FlattenMultiset(ids: seq<string>, preds: seq<real>, keys: seq<string>, groups: seq<seq<real>>)
    requires |ids| == |preds| && |groups| == |keys|
    requires forall j :: 0 <= j < |keys| ==> groups[j] == GroupOf(ids, preds, keys[j])
    ensures multiset(Flatten(groups)) == GroupsMultiset(ids, preds, keys)
  {
    if keys != [] {
      FlattenMultiset(ids, preds, keys[1..], groups[1..]);
    }
  }

  /** The columns the loop builds hold, between them, every prediction exactly once. */
  lemma GroupsCoverPredictions(ids: seq<string>, preds: seq<real>, keys: seq<string>, groups: seq<seq<real>>)
    requires |ids| == |preds|
    requires forall i, j :: 0 <= i < j < |keys| ==> keys[i] != keys[j]
    requires forall k :: k in keys <==> k in ids
    requires |groups| == |keys| && forall j :: 0 <= j < |keys| ==> groups[j] == GroupOf(ids, preds, keys[j])
    ensures multiset(Flatten(groups)) == multiset(preds)
  {
    FlattenMultiset(ids, preds, keys, groups);
    GroupsMultisetAll(ids, preds, keys);
  }

  /** A column is as long as its ID is frequent. */
  lemma {:induction false} GroupOfLength(ids: seq<string>, preds: seq<real>, key: string)
    requires |ids| == |preds|
    ensures |GroupOf(ids, preds, key)| == multiset(ids)[key]
    decreases |ids|
  {
    if ids != [] {
      var m := |ids| - 1;
      GroupOfLength(ids[..m], preds[..m], key);
      assert ids == ids[..m] + [ids[m]];
    }
  }

  /** A key of the loop is some file's scan ID, and every scan ID is a key. */
  lemma KeyIndex(ids: seq<string>, keys: seq<string>, k: string) returns (a: nat, i: nat)
    requires forall k :: k in keys <==> k in ids
    requires k in ids
    ensures a < |keys| && keys[a] == k && i < |ids| && ids[i] == k
  {
    assert k in keys;
    a :| 0 <= a < |keys| && keys[a] == k;
    i :| 0 <= i < |ids| && ids[i] == k;
  }

  /** Columns that stack mean every scan ID occurs equally often. */
  lemma BalancedEqualCounts(ids: seq<string>, preds: seq<real>, keys: seq<string>, groups: seq<seq<real>>)
    requires |ids| == |preds|
    requires forall k :: k in keys <==> k in ids
    requires |groups| == |keys| && forall j :: 0 <= j < |keys| ==> groups[j] == GroupOf(ids, preds, keys[j])
    requires Balanced(groups)
    ensures EqualCounts(ids)
  {
    forall i, j | 0 <= i < |ids| && 0 <= j < |ids| ensures multiset(ids)[ids[i]] == multiset(ids)[ids[j]] {
      var a, _ := KeyIndex(ids, keys, ids[i]);
      var b, _ := KeyIndex(ids, keys, ids[j]);
      GroupOfLength(ids, preds, ids[i]);
      GroupOfLength(ids, preds, ids[j]);
      assert |groups[a]| == |groups[b]|;
    }
  }

  /** Scan IDs that occur equally often mean columns of one length. */
  lemma EqualCountsBalanced(ids: seq<string>, preds: seq<real>, keys: seq<string>, groups: seq<seq<real>>)
    requires |ids| == |preds|
    requires forall k :: k in keys <==> k in ids
    requires |groups| == |keys| && forall j :: 0 <= j < |keys| ==> groups[j] == GroupOf(ids, preds, keys[j])
    requires EqualCounts(ids)
    ensures Balanced(groups)
  {
    forall a, b | 0 <= a < |groups| && 0 <= b < |groups| ensures |groups[a]| == |groups[b]| {
      assert keys[a] in ids && keys[b] in ids;
      var _, i := KeyIndex(ids, keys, keys[a]);
      var _, j := KeyIndex(ids, keys, keys[b]);
      GroupOfLength(ids, preds, keys[a]);
      GroupOfLength(ids, preds, keys[b]);
    }
  }

  /** The columns can be stacked exactly when every scan ID occurs equally often. */
  lemma GroupsBalanced(ids: seq<string>, preds: seq<real>, keys: seq<string>, groups: seq<seq<real>>)
    requires |ids| == |preds|
    requires forall k :: k in keys <==> k in ids
    requires |groups| == |keys| && forall j :: 0 <= j < |keys| ==> groups[j] == GroupOf(ids, preds, keys[j])
    ensures Balanced(groups) <==> EqualCounts(ids)
  {
    if Balanced(groups) {
      BalancedEqualCounts(ids, preds, keys, groups);
    }
    if EqualCounts(ids) {
      EqualCountsBalanced(ids, preds, keys, groups);
    }
  }

  /** When every file belongs to a different scan, the columns always stack and the age is the median of all predictions. */
  lemma DistinctIdsPool(names: seq<string>, preds: seq<real>, subject: string)
    requires forall i :: 0 <= i < |names| ==> '-' in names[i]
    requires forall i, j :: 0 <= i < j < |names| ==> ScanId(names[i]) != ScanId(names[j])
    requires |preds| == |names| && names != []
    ensures ExpectedReport(names, preds, subject) == Ok(AgeReport(subject, Age(Median.Median(preds))))
  {
    var ids := Ids(names);
    forall i | 0 <= i < |ids| ensures multiset(ids)[ids[i]] == 1 {
      DistinctOnce(ids, i);
    }
  }

  /**
   * When every file belongs to one scan, there is a single column, which always
   * stacks, and the age is the median of all predictions.
   */
  lemma SharedIdPool(names: seq<string>, preds: seq<real>, subject: string)
    requires forall i :: 0 <= i < |names| ==> '-' in names[i]
    requires forall i, j :: 0 <= i < |names| && 0 <= j < |names| ==> ScanId(names[i]) == ScanId(names[j])
    requires |preds| == |names| && names != []
    ensures ExpectedReport(names, preds, subject) == Ok(AgeReport(subject, Age(Median.Median(preds))))
  {
    var ids := Ids(names);
    forall i, j | 0 <= i < |ids| && 0 <= j < |ids| ensures ids[i] == ids[j] {
      assert ids[i] == ScanId(names[i]) && ids[j] == ScanId(names[j]);
    }
  }

  lemma {:induction false} DistinctOnce(s: seq<string>, i: nat)
    requires i < |s| && forall a, b :: 0 <= a < b < |s| ==> s[a] != s[b]
    ensures multiset(s)[s[i]] == 1
    decreases |s|
  {
    var m := |s| - 1;
    assert s == s[..m] + [s[m]];
    if i < m {
      DistinctOnce(s[..m], i);
      assert s[..m][i] == s[i];
    } else {
      assert s[m] !in s[..m] by {
        forall a | 0 <= a < m ensures s[..m][a] != s[m] {
          assert s[..m][a] == s[a];
        }
      }
    }
  }
}
