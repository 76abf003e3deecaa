/**
 * Slicer.py: the brain-extracted MNI volume of one subject is cut into 80 axial
 * planes, 45 to 124, each saved as a JPEG under `<directory>/Test/`. The volume
 * is reduced to its number of axial planes; the intensity scaling and the image
 * conversion are not modelled. Model_Test.py reads whatever folder its first
 * argument names; `SlicedSubjectAge` assumes it is `<directory>`, whose one class
 * folder `Test` holds the slices.
 */
module Slicer {
  import opened Maybe
  import Text
  import AgeModel
  import Median

  /** The number of slices written. */
  const SliceCount: nat := 80

  /** The axial plane of slice 0. */
  const FirstPlane: nat := 45

  /** `file`: the volume the script reads. */
  function InputName(subject: string): string {
    subject + "_brain_MNI.nii.gz"
  }

  /** The path handed to `nib.load`. */
  function InputPath(directory: string, subject: string): string {
    directory + "/" + InputName(subject)
  }

  /** Python's `s[:-7]`: all but the last seven characters, or nothing. */
  function DropLast7(s: string): (r: string)
    ensures r <= s && |r| == if |s| >= 7 then |s| - 7 else 0
  {
    if |s| >= 7 then s[..|s| - 7] else ""
  }

  /** The name of slice `x` inside the `Test` folder. */
  function SliceFileName(subject: string, x: nat): string {
    DropLast7(InputName(subject)) + "-" + Text.NatToString(x) + ".jpg"
  }

  /** The path slice `x` is saved to. */
  function SlicePath(directory: string, subject: string, x: nat): string {
    directory + "/Test/" + SliceFileName(subject, x)
  }

  /** The name `flow_from_directory` lists for slice `x`: its class folder and file. */
  function GeneratorName(subject: string, x: nat): string {
    "Test/" + SliceFileName(subject, x)
  }

  /** Cutting the extension leaves the subject and the `_brain_MNI` suffix. */
  lemma StemOfInput(subject: string)
    ensures DropLast7(InputName(subject)) == subject + "_brain_MNI"
  {
    var full := InputName(subject);
    assert full == (subject + "_brain_MNI") + ".nii.gz";
  }

  /**
   * The script's run on a volume with `depth` axial planes: the input name is the
   * one entry of `names`; slice `x` is written while plane `45 + x` exists, and the
   * first missing plane raises IndexError, reported as that plane.
   */
  method WriteSlices(directory: string, subject: string, depth: nat)
    returns (loaded: string, names: seq<string>, written: seq<string>, missing: Option<nat>)
    ensures loaded == InputPath(directory, subject) && names == [InputName(subject)]
    ensures missing.None? <==> depth >= FirstPlane + SliceCount
    ensures missing.None? ==> |written| == SliceCount
    ensures missing.Some? ==> |written| == (if depth > FirstPlane then depth - FirstPlane else 0)
                              && missing.value == FirstPlane + |written|
    ensures forall x :: 0 <= x < |written| ==> written[x] == SlicePath(directory, subject, x)
  {
    var file := InputName(subject);
    loaded := directory + "/" + file;
    names := [];
    names := names + [file];
    written := [];
    for x := 0 to SliceCount
      invariant |written| == x && (x == 0 || FirstPlane + x <= depth)
      invariant forall k :: 0 <= k < x ==> written[k] == SlicePath(directory, subject, k)
    {
      if FirstPlane + x >= depth {
        return loaded, names, written, Some(FirstPlane + x);
      }
      written := written + [directory + "/Test/" + DropLast7(file) + "-" + Text.NatToString(x) + ".jpg"];
    }
    missing := None;
  }

  /** Equal sequences with a common prefix and suffix have equal middles. */
  lemma CancelAround(p: string, a: string, b: string, q: string)
    requires p + a + q == p + b + q
    ensures a == b
  {
    assert |a| == |b|;
    forall i | 0 <= i < |a| ensures a[i] == b[i] {
      assert (p + a + q)[|p| + i] == a[i];
      assert (p + b + q)[|p| + i] == b[i];
    }
  }

  /** Distinct slices are saved to distinct files, so none overwrites another. */
  lemma SlicePathsDistinct(directory: string, subject: string, x: nat, y: nat)
    requires x != y
    ensures SlicePath(directory, subject, x) != SlicePath(directory, subject, y)
    ensures GeneratorName(subject, x) != GeneratorName(subject, y)
  {
    var stem := DropLast7(InputName(subject)) + "-";
    Text.NatToStringInjective(x, y);
    PathShape(directory + "/Test/", stem, subject, x);
    PathShape(directory + "/Test/", stem, subject, y);
    PathShape("Test/", stem, subject, x);
    PathShape("Test/", stem, subject, y);
    if SlicePath(directory, subject, x) == SlicePath(directory, subject, y) {
      CancelAround(directory + "/Test/" + stem, Text.NatToString(x), Text.NatToString(y), ".jpg");
    }
    if GeneratorName(subject, x) == GeneratorName(subject, y) {
      CancelAround("Test/" + stem, Text.NatToString(x), Text.NatToString(y), ".jpg");
    }
  }

  lemma PathShape(folder: string, stem: string, subject: string, x: nat)
    requires stem == DropLast7(InputName(subject)) + "-"
    ensures folder + SliceFileName(subject, x) == folder + stem + Text.NatToString(x) + ".jpg"
  {
  }

  /** The parts of a slice name as the generator lists it. */
  lemma GeneratorNameParts(subject: string, x: nat)
    ensures GeneratorName(subject, x) == "Test/" + subject + "_brain_MNI-" + Text.NatToString(x) + ".jpg"
  {
    StemOfInput(subject);
  }

  /**
   * A `_T1` in `pre + mid + tail` lies inside `mid` when `pre` has no `_`,
   * `tail` has no `_T1` and cannot complete one begun in `mid`.
   */
  lemma MarkerInJoin(pre: string, mid: string, tail: string, j: nat)
    requires '_' !in pre
    requires tail != [] && tail[0] != 'T' && tail[0] != '1'
    requires forall k :: 0 <= k < |tail| ==> !AgeModel.MarkerAt(tail, k)
    ensures AgeModel.MarkerAt(pre + mid + tail, j) <==> |pre| <= j && AgeModel.MarkerAt(mid, j - |pre|)
  {
    var name := pre + mid + tail;
    var p := |pre| + |mid|;
    if j < |pre| {
      assert name[j] == pre[j];
    } else if j + 3 <= p {
      assert name[j] == mid[j - |pre|] && name[j + 1] == mid[j + 1 - |pre|] && name[j + 2] == mid[j + 2 - |pre|];
    } else if j < p {
      assert name[p] == tail[0];
    } else if j < |name| {
      assert !AgeModel.MarkerAt(tail, j - p);
      assert name[j] == tail[j - p];
      if j + 3 <= |name| {
        assert name[j + 1] == tail[j + 1 - p] && name[j + 2] == tail[j + 2 - p];
      }
    }
  }

  /** The suffix of a slice name holds no `_T1`. */
  lemma SuffixHasNoMarker(x: nat, k: nat)
    ensures !AgeModel.MarkerAt("_brain_MNI-" + Text.NatToString(x) + ".jpg", k)
  {
    var digits := Text.NatToString(x);
    var tail := "_brain_MNI-" + digits + ".jpg";
    if k < 11 {
      assert tail[..11] == "_brain_MNI-";
      if k + 1 < 11 {
        assert tail[k] == "_brain_MNI-"[k] && tail[k + 1] == "_brain_MNI-"[k + 1];
      } else {
        assert tail[k] == '-';
      }
    } else if k < 11 + |digits| {
      assert tail[k] == digits[k - 11];
    } else if k < |tail| {
      assert tail[k] == ".jpg"[k - 11 - |digits|];
    }
  }

  /** A `_T1` occurs in a slice name exactly where the subject holds one, shifted past `Test/`. */
  lemma MarkerInSliceName(subject: string, x: nat, j: nat)
    ensures AgeModel.MarkerAt(GeneratorName(subject, x), j) <==> 5 <= j && AgeModel.MarkerAt(subject, j - 5)
  {
    GeneratorNameParts(subject, x);
    var tail := "_brain_MNI-" + Text.NatToString(x) + ".jpg";
    forall k | 0 <= k < |tail| ensures !AgeModel.MarkerAt(tail, k) {
      SuffixHasNoMarker(x, k);
    }
    assert GeneratorName(subject, x) == "Test/" + subject + tail;
    MarkerInJoin("Test/", subject, tail, j);
  }

  /**
   * The scan ID of a name that begins with `pre + mid` and holds a `_T1`
   * exactly where `mid` does.
   */
  lemma ScanIdShifted(name: string, pre: string, mid: string)
    requires pre + mid <= name
    requires forall j: nat :: AgeModel.MarkerAt(name, j) <==> |pre| <= j && AgeModel.MarkerAt(mid, j - |pre|)
    ensures AgeModel.ScanId(name) ==
            if |AgeModel.ScanId(mid)| < |mid| then pre + AgeModel.ScanId(mid) else name
  {
    AgeModel.ScanIdSpec(mid);
    var l := |AgeModel.ScanId(mid)|;
    if l < |mid| {
      assert AgeModel.MarkerAt(name, |pre| + l);
      AgeModel.ScanIdUnique(name, |pre| + l);
      assert name[..|pre| + l] == pre + mid[..l];
    } else {
      forall j | 0 <= j < |name| ensures !AgeModel.MarkerAt(name, j) {
        if |pre| <= j {
          assert !AgeModel.MarkerAt(mid, j - |pre|);
        }
      }
      AgeModel.ScanIdUnique(name, |name|);
    }
  }

  /**
   * The scan ID of a slice: `Test/` and the subject's own scan ID when the
   * subject holds a `_T1`, which all slices of the subject then share;
   * otherwise the whole slice name. Every slice name has a `-`.
   */
  lemma SliceScanId(subject: string, x: nat)
    ensures AgeModel.ScanId(GeneratorName(subject, x)) ==
            if |AgeModel.ScanId(subject)| < |subject| then "Test/" + AgeModel.ScanId(subject)
            else GeneratorName(subject, x)
    ensures '-' in GeneratorName(subject, x)
  {
    GeneratorNameParts(subject, x);
    var name := GeneratorName(subject, x);
    forall j: nat ensures AgeModel.MarkerAt(name, j) <==> 5 <= j && AgeModel.MarkerAt(subject, j - 5) {
      MarkerInSliceName(subject, x, j);
    }
    ScanIdShifted(name, "Test/", subject);
    assert name[5 + |subject| + 10] == '-';
  }

  /**
   * The prediction of a subject sliced by this script, whatever order the
   * generator lists the slices in: with one prediction per slice, the reported
   * age is the median of all of them, whether the slices form one scan or one
   * scan each.
   */
  lemma SlicedSubjectAge(subject: string, xs: seq<nat>, preds: seq<real>)
    requires xs != [] && |preds| == |xs|
    requires forall i, j :: 0 <= i < j < |xs| ==> xs[i] != xs[j]
    ensures var names := seq(|xs|, i requires 0 <= i < |xs| => GeneratorName(subject, xs[i]));
            AgeModel.ExpectedReport(names, preds, subject)
            == Ok(AgeModel.AgeReport(subject, AgeModel.Age(Median.Median(preds))))
  {
    var names := seq(|xs|, i requires 0 <= i < |xs| => GeneratorName(subject, xs[i]));
    forall i | 0 <= i < |names| ensures '-' in names[i] {
      SliceScanId(subject, xs[i]);
    }
    if |AgeModel.ScanId(subject)| < |subject| {
      // The subject holds a `_T1`: every slice belongs to one scan.
      forall i, j | 0 <= i < |names| && 0 <= j < |names|
        ensures AgeModel.ScanId(names[i]) == AgeModel.ScanId(names[j])
      {
        SliceScanId(subject, xs[i]);
        SliceScanId(subject, xs[j]);
      }
      AgeModel.SharedIdPool(names, preds, subject);
    } else {
      // Otherwise every slice is a scan of its own.
      forall i, j | 0 <= i < j < |names| ensures AgeModel.ScanId(names[i]) != AgeModel.ScanId(names[j]) {
        SliceScanId(subject, xs[i]);
        SliceScanId(subject, xs[j]);
        SlicePathsDistinct("", subject, xs[i], xs[j]);
      }
      AgeModel.DistinctIdsPool(names, preds, subject);
    }
  }
}
