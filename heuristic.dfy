/**
 * The HeuDiConv heuristic (hediconv_src/heuristic.py): `create_key` checks an
 * output template, and `infotodict` files each scanner series under the BIDS
 * output it belongs to by exact matches on its description and dimensions.
 */
module Heuristic {
  import opened Maybe

  /** `create_key`'s result: the template, the output types and the annotation classes. */
  datatype Key = Key(template: string, outtype: seq<string>, annotationClasses: Option<seq<string>>)

  /** The ValueError `create_key` raises. */
  datatype KeyError = InvalidTemplate

  /** `('nii.gz',)` */
  const DefaultOuttype: seq<string> := ["nii.gz"]

  /** `create_key`: a missing or empty template is refused; anything else is returned unchanged. */
  function CreateKey(template: Option<string>, outtype: seq<string> := DefaultOuttype,
                     annotationClasses: Option<seq<string>> := None): (r: Result<Key, KeyError>)
    ensures r.Err? <==> template == None || template == Some("")
    ensures r.Ok? ==> r.value == Key(template.value, outtype, annotationClasses)
  {
    if template.None? || template.value == "" then Err(InvalidTemplate)
    else Ok(Key(template.value, outtype, annotationClasses))
  }

  /** The fields of a series that the heuristic reads. */
  datatype SeqInfo = SeqInfo(seriesId: string, description: string, dim1: int, dim2: int, dim3: int, dim4: int)

  /** The BIDS outputs the heuristic knows. */
  datatype Target = T1w | T2w | Flair | DwiAP | DwiPA | Func | FmapMagnitude | FmapPhasediff

  /** The template of each output; the PA diffusion series is filed as a fieldmap. */
  function Template(t: Target): string {
    match t
    case T1w => "sub-{subject}/anat/sub-{subject}_T1w"
    case T2w => "sub-{subject}/anat/sub-{subject}_T2w"
    case Flair => "sub-{subject}/anat/sub-{subject}_FLAIR"
    case DwiAP => "sub-{subject}/dwi/sub-{subject}_dir-AP_dwi"
    case DwiPA => "sub-{subject}/fmap/sub-{subject}_dir-PA_epi"
    case Func => "sub-{subject}/func/sub-{subject}_task-rest_bold"
    case FmapMagnitude => "sub-{subject}/fmap/sub-{subject}_magnitude"
    case FmapPhasediff => "sub-{subject}/fmap/sub-{subject}_phasediff"
  }

  /** The key `create_key` builds for an output. */
  function KeyOf(t: Target): Key {
    Key(Template(t), DefaultOuttype, None)
  }

  /** Every output's template is accepted, and the keys of different outputs differ. */
  lemma KeysValid(t: Target, u: Target)
    ensures CreateKey(Some(Template(t))) == Ok(KeyOf(t))
    ensures t != u ==> KeyOf(t) != KeyOf(u)
  {
    if t != u {
      // The templates differ in their last but one character.
      SecondToLast(t);
      SecondToLast(u);
    }
  }

  /** The last but one character of each template, which tells the outputs apart. */
  lemma SecondToLast(t: Target)
    ensures var a := Template(t); |a| >= 2 && a[|a| - 2] == match t
      case T1w => '1' case T2w => '2' case Flair => 'I' case DwiAP => 'w'
      case DwiPA => 'p' case Func => 'l' case FmapMagnitude => 'd' case FmapPhasediff => 'f'
  {
  }

  /** The rule of each output: the exact description and dimensions, `dim4` only where checked. */
  predicate Matches(t: Target, s: SeqInfo) {
    match t
    case T1w => s.description == "MPRAGE_Linear" && s.dim1 == 256 && s.dim2 == 256 && s.dim3 == 208
    case Flair => s.description == "t2_space_dark-fluid_sag_p2" && s.dim1 == 256 && s.dim2 == 256 && s.dim3 == 208
    case T2w => s.description == "t2_space_sag_iso_p6" && s.dim1 == 256 && s.dim2 == 256 && s.dim3 == 240
    case DwiAP => s.description == "ep2d_diff_qball96dir_2iso_AP_b2500&b0"
                  && s.dim1 == 114 && s.dim2 == 114 && s.dim3 == 72 && s.dim4 == 97
    case DwiPA => s.description == "ep2d_diff_qball96dir_2iso_PA_b0" && s.dim1 == 114 && s.dim2 == 114 && s.dim3 == 432
    case Func => s.description == "rsfMRI_ep2d_bold_moco_p2_sms4_404meas"
                 && s.dim1 == 74 && s.dim2 == 74 && s.dim3 == 56 && s.dim4 == 404
    case FmapMagnitude => s.description == "gre_field_mapping 3x3x3" && s.dim1 == 64 && s.dim2 == 64 && s.dim3 == 112
    case FmapPhasediff => s.description == "gre_field_mapping 3x3x3" && s.dim1 == 64 && s.dim2 == 64 && s.dim3 == 56
  }

  /** A series matches at most one rule; the two fieldmap rules are told apart by `dim3` alone. */
  lemma RulesExclusive(t: Target, u: Target, s: SeqInfo)
    requires Matches(t, s) && Matches(u, s)
    ensures t == u
  {
    // The descriptions differ in length or in their first character;
    // the fieldmap rules share one description and differ in dim3.
    var d := s.description;
    assert |d| in {13, 19, 23, 26, 31, 37};
    assert d[0] in {'M', 't', 'e', 'r', 'g'};
  }

  /** The id of the last series in `ss` that matches the rule of `t`. */
  function LastMatch(ss: seq<SeqInfo>, t: Target): Option<string> {
    if ss == [] then None
    else if Matches(t, ss[|ss| - 1]) then Some(ss[|ss| - 1].seriesId)
    else LastMatch(ss[..|ss| - 1], t)
  }

  /** The last match is the id of a matching series with no matching series after it; there is none exactly when nothing matches. */
  lemma {:induction false} LastMatchSpec(ss: seq<SeqInfo>, t: Target)
    ensures LastMatch(ss, t).None? <==> forall i :: 0 <= i < |ss| ==> !Matches(t, ss[i])
    ensures LastMatch(ss, t).Some? ==>
              exists i :: 0 <= i < |ss| && Matches(t, ss[i]) && ss[i].seriesId == LastMatch(ss, t).value
                          && forall j :: i < j < |ss| ==> !Matches(t, ss[j])
  {
    if ss != [] {
      var m := |ss| - 1;
      LastMatchSpec(ss[..m], t);
      assert forall i :: 0 <= i < m ==> ss[..m][i] == ss[i];
      if !Matches(t, ss[m]) && LastMatch(ss[..m], t).Some? {
        var i :| 0 <= i < m && Matches(t, ss[..m][i]) && ss[..m][i].seriesId == LastMatch(ss[..m], t).value
                 && forall j :: i < j < m ==> !Matches(t, ss[..m][j]);
        assert forall j :: i < j < |ss| ==> !Matches(t, ss[j]);
      }
    }
  }

  /** The list filed under an output: empty, or the one id that won. */
  function Listed(id: Option<string>): seq<string> {
    if id.None? then [] else [id.value]
  }

  /** The outputs `info` holds after reading `ss`: all but `func` from the start, and `func` once a series matched its rule. */
  predicate Present(ss: seq<SeqInfo>, t: Target) {
    t != Func || LastMatch(ss, Func).Some?
  }

  /**
   * `info` after reading `ss`: exactly the present outputs, each holding its last
   * match or nothing. The dictionary is keyed by output; `KeysValid` shows the
   * `create_key` tuples of distinct outputs are distinct.
   */
  predicate Describes(info: map<Target, seq<string>>, ss: seq<SeqInfo>) {
    && (forall t :: t in info <==> Present(ss, t))
    && (forall t :: t in info ==> info[t] == Listed(LastMatch(ss, t)))
  }

  /** `infotodict` */
  method InfoToDict(seqinfo: seq<SeqInfo>) returns (info: map<Target, seq<string>>)
    ensures Describes(info, seqinfo)
  {
    info := map[T1w := [], T2w := [], Flair := [], DwiAP := [], DwiPA := [], FmapMagnitude := [], FmapPhasediff := []];
    for i := 0 to |seqinfo|
      invariant Describes(info, seqinfo[..i])
    {
      var s := seqinfo[i];
      ghost var before := info;
      info := FileSeries(info, s);
      ReadOne(before, info, seqinfo[..i], s);
      assert seqinfo[..i + 1] == seqinfo[..i] + [s];
    }
    assert seqinfo[..|seqinfo|] == seqinfo;
  }

  /** The body of the loop over the series: each rule that matches files the series' id under its output. */
  method FileSeries(info: map<Target, seq<string>>, s: SeqInfo) returns (after: map<Target, seq<string>>)
    ensures forall t :: Matches(t, s) ==> after == info[t := [s.seriesId]]
    ensures (forall t :: !Matches(t, s)) ==> after == info
  {
    Exclusive(s);
    after := info;
    if Matches(T1w, s) { after := after[T1w := [s.seriesId]]; }
    if Matches(Flair, s) { after := after[Flair := [s.seriesId]]; }
    if Matches(T2w, s) { after := after[T2w := [s.seriesId]]; }
    if Matches(DwiAP, s) { after := after[DwiAP := [s.seriesId]]; }
    if Matches(DwiPA, s) { after := after[DwiPA := [s.seriesId]]; }
    if Matches(Func, s) { after := after[Func := [s.seriesId]]; }
    if Matches(FmapMagnitude, s) { after := after[FmapMagnitude := [s.seriesId]]; }
    if Matches(FmapPhasediff, s) { after := after[FmapPhasediff := [s.seriesId]]; }
  }

  /** No series matches two rules, so at most one assignment of the loop body takes effect. */
  lemma Exclusive(s: SeqInfo)
    ensures forall t, u :: Matches(t, s) && Matches(u, s) ==> t == u
  {
    forall t, u | Matches(t, s) && Matches(u, s) ensures t == u {
      RulesExclusive(t, u, s);
    }
  }

  /** One series sets the output whose rule it matches, if any, and leaves every other output as it was. */
  lemma ReadOne(before: map<Target, seq<string>>, after: map<Target, seq<string>>, ss: seq<SeqInfo>, s: SeqInfo)
    requires Describes(before, ss)
    requires forall t :: Matches(t, s) ==> after == before[t := [s.seriesId]]
    requires (forall t :: !Matches(t, s)) ==> after == before
    ensures Describes(after, ss + [s])
  {
    var ss' := ss + [s];
    assert ss'[..|ss|] == ss;
    Exclusive(s);
    forall t ensures LastMatch(ss', t) == if Matches(t, s) then Some(s.seriesId) else LastMatch(ss, t) {
    }
  }
}
