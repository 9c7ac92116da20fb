/** models/ddos_detector.py: the decision cascade on one feature vector, and its batched form.

  A loaded model scores rows of two features independently: it gives class probabilities, or a label.
 */
module DdosDetector {
  import opened Wrappers

  type FeatureVector = map<string, real>

  datatype Model =
    | NoModel
    | Probabilities(predictProba: ((real, real)) -> seq<real>)
    | Labels(predict: ((real, real)) -> int)
  {
    /** A probability row has at least one class: the source indexes it without a check. */
    ghost predicate Valid() {
      Probabilities? ==> forall row :: |predictProba(row)| > 0
    }
  }

  /** The explanation text, by its template and the number put into it. */
  datatype Explanation =
    | NoExplanation
    | SynFlood(ratio: real)
    | Amplification(ratio: real)
    | SpoofedSources(entropy: real)
    | Classifier(score: real)
    | IsolationForest

  datatype FeaturesUsed = FeaturesUsed(synRatio: real, pktEwma: real, ampRatio: real, entropy: real)

  datatype Verdict = Verdict(score: real, used: FeaturesUsed, explanation: Explanation)

  function Get(fv: FeatureVector, name: string): real {
    if name in fv then fv[name] else 0.0
  }

  function Used(fv: FeatureVector): FeaturesUsed {
    FeaturesUsed(Get(fv, "syn_synack_ratio"), Get(fv, "dst_pkt_ewma"), Get(fv, "amp_byte_ratio"),
                 Get(fv, "src_ip_entropy"))
  }

  /** The two features a model looks at, narrowed to single precision by `narrow`. */
  function Row(fv: FeatureVector, narrow: real -> real): (real, real) {
    (narrow(Get(fv, "syn_synack_ratio")), narrow(Get(fv, "dst_pkt_ewma")))
  }

  /** The probability taken from a row: that of the second class if there is one. */
  function ScoreOf(probabilities: seq<real>): real
    requires |probabilities| > 0
  {
    if |probabilities| > 1 then probabilities[1] else probabilities[0]
  }

  class DDoSDetector {
    const model: Model
    const narrow: real -> real

    constructor (model: Model, narrow: real -> real)
      ensures this.model == model && this.narrow == narrow
    {
      this.model, this.narrow := model, narrow;
    }

    function Predict(fv: FeatureVector): Verdict
      requires model.Valid()
    {
      var synRatio, pktEwma := Get(fv, "syn_synack_ratio"), Get(fv, "dst_pkt_ewma");
      var ampRatio, entropy := Get(fv, "amp_byte_ratio"), Get(fv, "src_ip_entropy");
      var byteEwma := Get(fv, "dst_byte_ewma");
      var used := FeaturesUsed(synRatio, pktEwma, ampRatio, entropy);
      if pktEwma < 2.0 && synRatio < 2.0 && ampRatio < 5.0 && entropy < 3.0 then Verdict(0.0, used, NoExplanation)
      else if synRatio > 10.0 then Verdict(0.95, used, SynFlood(synRatio))
      else if ampRatio > 10.0 then Verdict(0.98, used, Amplification(ampRatio))
      else if entropy > 3.0 && (pktEwma > 5.0 || byteEwma > 1000.0) then Verdict(0.92, used, SpoofedSources(entropy))
      else
        match model
        case NoModel => Verdict(0.0, used, NoExplanation)
        case Probabilities(predictProba) =>
          var score := ScoreOf(predictProba((narrow(synRatio), narrow(pktEwma))));
          Verdict(score, used, if score > 0.5 then Classifier(score) else NoExplanation)
        case Labels(predict) =>
          if predict((narrow(synRatio), narrow(pktEwma))) == -1
          then Verdict(0.8, used, IsolationForest) else Verdict(0.0, used, NoExplanation)
    }

    /** The verdict of the triage rules alone, if one of them applies; what is left goes to the model. */
    function Triage(fv: FeatureVector): Option<Verdict> {
      var used := Used(fv);
      if used.pktEwma < 2.0 && used.synRatio < 2.0 && used.ampRatio < 5.0 && used.entropy < 3.0
      then Some(Verdict(0.0, used, NoExplanation))
      else if used.synRatio > 10.0 then Some(Verdict(0.95, used, SynFlood(used.synRatio)))
      else if used.ampRatio > 10.0 then Some(Verdict(0.98, used, Amplification(used.ampRatio)))
      else if used.entropy > 3.0 && (used.pktEwma > 5.0 || Get(fv, "dst_byte_ewma") > 1000.0)
      then Some(Verdict(0.92, used, SpoofedSources(used.entropy)))
      else if model == NoModel then Some(Verdict(0.0, used, NoExplanation))
      else None
    }

    lemma TriageAgrees(fv: FeatureVector)
      requires model.Valid()
      ensures Triage(fv).Some? ==> Triage(fv).value == Predict(fv)
      ensures Triage(fv).None? ==>
                && model != NoModel
                && Predict(fv) == if model.Probabilities?
                                  then FromProbabilities(fv, model.predictProba(Row(fv, narrow)))
                                  else FromLabel(fv, model.predict(Row(fv, narrow)))
    {
    }

    /** What a prediction says, rule by rule, in terms of the vector's own entries (a missing one is zero): the first
        rule that applies decides, and what none decides is the model's: its probability of the second class (of
        the only one, if there is one), reported above one half, or its label, where -1 is an anomaly. */
    lemma PredictMeaning(fv: FeatureVector, syn: real, pkts: real, bytes: real, amp: real, entropy: real)
      requires model.Valid()
      requires syn == if "syn_synack_ratio" in fv then fv["syn_synack_ratio"] else 0.0
      requires pkts == if "dst_pkt_ewma" in fv then fv["dst_pkt_ewma"] else 0.0
      requires bytes == if "dst_byte_ewma" in fv then fv["dst_byte_ewma"] else 0.0
      requires amp == if "amp_byte_ratio" in fv then fv["amp_byte_ratio"] else 0.0
      requires entropy == if "src_ip_entropy" in fv then fv["src_ip_entropy"] else 0.0
      ensures Predict(fv).used == FeaturesUsed(syn, pkts, amp, entropy)
      ensures Predict(fv).score > 0.5 <==> Predict(fv).explanation != NoExplanation
      ensures syn > 10.0 ==> Predict(fv).score == 0.95 && Predict(fv).explanation == SynFlood(syn)
      ensures syn <= 10.0 && amp > 10.0 ==>
                Predict(fv).score == 0.98 && Predict(fv).explanation == Amplification(amp)
      ensures var spoofed := entropy > 3.0 && (pkts > 5.0 || bytes > 1000.0);
              syn <= 10.0 && amp <= 10.0 && spoofed ==>
                Predict(fv).score == 0.92 && Predict(fv).explanation == SpoofedSources(entropy)
      ensures var quiet := pkts < 2.0 && syn < 2.0 && amp < 5.0 && entropy < 3.0;
              var spoofed := entropy > 3.0 && (pkts > 5.0 || bytes > 1000.0);
              if quiet then Predict(fv).score == 0.0
              else syn <= 10.0 && amp <= 10.0 && !spoofed ==>
                match model
                case NoModel => Predict(fv).score == 0.0
                case Probabilities(predictProba) =>
                  var row := predictProba((narrow(syn), narrow(pkts)));
                  |row| > 0 && Predict(fv).score == row[if |row| == 1 then 0 else 1]
                case Labels(predict) =>
                  Predict(fv).score == if predict((narrow(syn), narrow(pkts))) == -1 then 0.8 else 0.0
    {
    }

    function FromProbabilities(fv: FeatureVector, probabilities: seq<real>): Verdict
      requires |probabilities| > 0
    {
      var score := ScoreOf(probabilities);
      Verdict(score, Used(fv), if score > 0.5 then Classifier(score) else NoExplanation)
    }

    function FromLabel(fv: FeatureVector, prediction: int): Verdict {
      Verdict(if prediction == -1 then 0.8 else 0.0, Used(fv),
              if prediction == -1 then IsolationForest else NoExplanation)
    }

    /** The vectors left for the model: their positions in order, and the rows that stand for them. */
    ghost predicate Queued(fvs: seq<FeatureVector>, n: nat, indices: seq<nat>, rows: seq<(real, real)>)
      requires n <= |fvs|
    {
      && |rows| == |indices|
      && (forall k | 0 <= k < |indices| :: indices[k] < n && Triage(fvs[indices[k]]).None?
                                          && rows[k] == Row(fvs[indices[k]], narrow))
      && (forall i | 0 <= i < n && Triage(fvs[i]).None? :: i in indices)
    }

    /** Every position holds its verdict, except the first `n` ones of the queue still left as placeholders. */
    ghost predicate Filled(fvs: seq<FeatureVector>, results: seq<Option<Verdict>>, pending: seq<nat>)
      requires model.Valid()
    {
      && |results| == |fvs|
      && forall i | 0 <= i < |fvs| :: results[i] == Some(Predict(fvs[i])) || (results[i] == None && i in pending)
    }

    /** The batch gives what the single predictions give, entry by entry, and leaves no placeholder. */
    method PredictBatch(fvs: seq<FeatureVector>) returns (results: seq<Option<Verdict>>)
      requires model.Valid()
      ensures |results| == |fvs|
      ensures forall i | 0 <= i < |fvs| :: results[i] == Some(Predict(fvs[i]))
    {
      var indices, rows;
      results, indices, rows := TriageAll(fvs);
      if rows != [] {
        match model {
          case NoModel =>
          case Probabilities(predictProba) =>
            var probs := seq(|rows|, k requires 0 <= k < |rows| => predictProba(rows[k]));
            results := FillProbabilities(fvs, results, indices, probs);
          case Labels(predict) =>
            var labels := seq(|rows|, k requires 0 <= k < |rows| => predict(rows[k]));
            results := FillLabels(fvs, results, indices, labels);
        }
      }
    }

    /** The first loop: triage verdicts, and placeholders for the vectors queued for the model. */
    method TriageAll(fvs: seq<FeatureVector>)
        returns (results: seq<Option<Verdict>>, indices: seq<nat>, rows: seq<(real, real)>)
      requires model.Valid()
      ensures Filled(fvs, results, indices) && Queued(fvs, |fvs|, indices, rows)
    {
      results, indices, rows := [], [], [];
      for i := 0 to |fvs|
        invariant Filled(fvs[..i], results, indices) && Queued(fvs, i, indices, rows)
      {
        var fv := fvs[i];
        TriageAgrees(fv);
        var verdict := Triage(fv);
        if verdict.None? {
          indices, rows := indices + [i], rows + [Row(fv, narrow)];
        }
        results := results + [verdict];
      }
      assert fvs[..|fvs|] == fvs;
    }

    method FillProbabilities(fvs: seq<FeatureVector>, placed: seq<Option<Verdict>>, indices: seq<nat>,
                             probs: seq<seq<real>>)
        returns (results: seq<Option<Verdict>>)
      requires model.Valid() && model.Probabilities?
      requires Filled(fvs, placed, indices) && |probs| == |indices|
      requires forall k | 0 <= k < |indices| :: indices[k] < |fvs| && Triage(fvs[indices[k]]).None?
                                                 && probs[k] == model.predictProba(Row(fvs[indices[k]], narrow))
      ensures Filled(fvs, results, [])
    {
      results := placed;
      for k := 0 to |indices|
        invariant Filled(fvs, results, indices[k..])
      {
        var fv := fvs[indices[k]];
        TriageAgrees(fv);
        assert |probs[k]| > 0;
        results := results[indices[k] := Some(FromProbabilities(fv, probs[k]))];
        assert indices[k..] == [indices[k]] + indices[k + 1..];
      }
    }

    method FillLabels(fvs: seq<FeatureVector>, placed: seq<Option<Verdict>>, indices: seq<nat>, labels: seq<int>)
        returns (results: seq<Option<Verdict>>)
      requires model.Valid() && model.Labels?
      requires Filled(fvs, placed, indices) && |labels| == |indices|
      requires forall k | 0 <= k < |indices| :: indices[k] < |fvs| && Triage(fvs[indices[k]]).None?
                                                 && labels[k] == model.predict(Row(fvs[indices[k]], narrow))
      ensures Filled(fvs, results, [])
    {
      results := placed;
      for k := 0 to |indices|
        invariant Filled(fvs, results, indices[k..])
      {
        var fv := fvs[indices[k]];
        TriageAgrees(fv);
        results := results[indices[k] := Some(FromLabel(fv, labels[k]))];
        assert indices[k..] == [indices[k]] + indices[k + 1..];
      }
    }
  }
}
