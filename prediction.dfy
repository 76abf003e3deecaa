/**
 * The output step of the DeepBrainNet container, run_prediction.py: the
 * predicted age of one subject is written to a per-subject CSV file, which is
 * replaced on every run, and collated into /tmp/output/predicted_age_collated.csv
 * under the shared collation rule. The prediction itself comes from a network
 * and is carried here as the text `csv.writer` writes for it.
 */
module Prediction {
  import opened Maybe
  import Tables

  /** `fields`: the header of both files. */
  const PredictionFields: Tables.Row := ["ID", "Predicted_Age"]

  /** `collated_file` */
  const CollatedPath: string := "/tmp/output/predicted_age_collated.csv"

  /** The per-subject result file. */
  function PerSubjectPath(subject: string): string {
    "/tmp/output/" + subject + "_predicted_age.csv"
  }

  /** `rows`: the subject and its predicted age. */
  function PredictionRow(subject: string, age: string): (row: Tables.Row)
    ensures |row| == |PredictionFields| && row[0] == subject && row[1] == age
  {
    [subject, age]
  }

  /** Whatever the subject, the per-subject file is never the collated file. */
  lemma PerSubjectNotCollated(subject: string)
    ensures PerSubjectPath(subject) != CollatedPath
  {
    var p := PerSubjectPath(subject);
    assert p[|p| - 5] == 'e';
    assert CollatedPath[|CollatedPath| - 5] == 'd';
  }

  /**
   * The writes of `__main__`: the per-subject file is replaced by the header and
   * the row; the collated file gets the row appended, or is created holding the
   * header and the row.
   */
  method WritePrediction(subject: string, age: string, perSubject: Tables.CsvFile, collated: Tables.CsvFile)
    requires perSubject != collated
    modifies perSubject, collated
    ensures perSubject.content == Some([PredictionFields, PredictionRow(subject, age)])
    ensures collated.content == Tables.Appended(old(collated.content), PredictionFields, [PredictionRow(subject, age)])
  {
    var rows := [PredictionRow(subject, age)];
    assert [PredictionFields] + rows == [PredictionFields, PredictionRow(subject, age)];
    perSubject.Write([PredictionFields] + rows);
    Tables.AppendOrCreate(collated, PredictionFields, rows);
  }

  /** The rows of successive runs, one run per subject. */
  function RunRows(subjects: seq<string>, ages: seq<string>): seq<seq<Tables.Row>>
    requires |subjects| == |ages|
  {
    seq(|subjects|, i requires 0 <= i < |subjects| => [PredictionRow(subjects[i], ages[i])])
  }

  /**
   * Starting with no collated file, N runs leave one header followed by one row
   * per run in run order; the per-subject file of the last run holds only that run.
   */
  lemma {:induction false} CollatedAfterRuns(subjects: seq<string>, ages: seq<string>)
    requires |subjects| == |ages| && subjects != []
    ensures var after := Tables.AppendedEach(None, PredictionFields, RunRows(subjects, ages));
      && after.Some? && |after.value| == |subjects| + 1 && after.value[0] == PredictionFields
      && forall i :: 0 <= i < |subjects| ==> after.value[i + 1] == [subjects[i], ages[i]]
  {
    var batches := RunRows(subjects, ages);
    Tables.RunsFromNoFile(PredictionFields, batches);
    FlattenRunRows(subjects, ages);
  }

  lemma {:induction false} FlattenRunRows(subjects: seq<string>, ages: seq<string>)
    requires |subjects| == |ages|
    ensures var rows := Tables.Flatten(RunRows(subjects, ages));
      |rows| == |subjects| && forall i :: 0 <= i < |subjects| ==> rows[i] == [subjects[i], ages[i]]
    decreases |subjects|
  {
    if subjects != [] {
      FlattenRunRows(subjects[1..], ages[1..]);
      var batches := RunRows(subjects, ages);
      assert batches[1..] == RunRows(subjects[1..], ages[1..]);
      var rows := Tables.Flatten(batches);
      assert rows == [[subjects[0], ages[0]]] + Tables.Flatten(batches[1..]);
    }
  }
}
