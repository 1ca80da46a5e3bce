/**
 * The ranking helpers of the PIGEAN tools: metric-name mapping, top-N
 * genes, top-N gene sets and factors, and the record shaping applied to
 * the bio-index rows. The rows arrive as already-fetched sequences; the
 * float scores are integer keys, since only their order is used.
 */
module Pigean {
  import opened Wrappers
  import opened Text
  import opened StableSort

  datatype PigeanError =
    | InvalidMetric(metric: string)   // ValueError("Invalid metric: ...")
    | MissingKey(key: string)         // KeyError on a row

  /** A gene-phenotype row: the gene and its three support scores. */
  datatype GeneRecord = GeneRecord(gene: string, combined: int, prior: int, logBf: int)

  /** The row fields a ranking can use: `combined`, `prior` and `log_bf`. */
  datatype GeneField = Combined | Prior | LogBf

  /** One entry of the top-genes answer. */
  datatype TopGene = TopGene(geneId: string, geneName: string, metricValue: int, metricName: string)

  function FieldValue(g: GeneRecord, f: GeneField): int {
    match f
    case Combined => g.combined
    case Prior => g.prior
    case LogBf => g.logBf
  }

  /** The row key a field is stored under. */
  function FieldName(f: GeneField): string {
    match f
    case Combined => "combined"
    case Prior => "prior"
    case LogBf => "log_bf"
  }

  /** The user-facing metric name that selects a field. */
  function MetricName(f: GeneField): string {
    match f
    case Combined => "combined"
    case Prior => "indirect"
    case LogBf => "direct"
  }

  function KeyOf(f: GeneField): GeneRecord -> int {
    (g: GeneRecord) => FieldValue(g, f)
  }

  /**
   * Maps the user-facing metric to the row field; any other name is an
   * error. The mapping is exactly the inverse of `MetricName`.
   */
  function MetricField(metric: string): (r: Result<GeneField, PigeanError>)
    ensures r.Success? ==> MetricName(r.value) == metric
    ensures r.Failure? ==> r.error == InvalidMetric(metric)
    ensures r.Failure? <==> metric != MetricName(Combined) && metric != MetricName(Prior) && metric != MetricName(LogBf)
  {
    if metric == "combined" then Success(Combined)
    else if metric == "indirect" then Success(Prior)
    else if metric == "direct" then Success(LogBf)
    else Failure(InvalidMetric(metric))
  }

  /** Every field is reachable from exactly its own metric name, and the row keys are distinct. */
  lemma MetricNamesRoundTrip(f: GeneField)
    ensures MetricField(MetricName(f)) == Success(f)
    ensures forall g :: g != f ==> FieldName(g) != FieldName(f) && MetricName(g) != MetricName(f)
  {
  }

  /**
   * `get_top_genes` after the fetch: rank the rows by the chosen field in
   * descending order (stable), keep the first `topN`, and report each as
   * gene id, gene name, value and the user-facing metric name.
   */
  method GetTopGenes(data: seq<GeneRecord>, topN: int, metric: string) returns (r: Result<seq<TopGene>, PigeanError>)
    ensures r.Failure? <==> MetricField(metric).Failure?
    ensures r.Failure? ==> r.error == InvalidMetric(metric)
    ensures r.Success? && topN >= 0 ==> |r.value| == if topN < |data| then topN else |data|
    ensures r.Success? ==> forall i, j :: 0 <= i < j < |r.value| ==> r.value[i].metricValue >= r.value[j].metricValue
    ensures r.Success? ==>
              var ranked := TopN(data, KeyOf(MetricField(metric).value), topN);
              |r.value| == |ranked| &&
              forall i :: 0 <= i < |ranked| ==>
                r.value[i] == TopGene(ranked[i].gene, ranked[i].gene, FieldValue(ranked[i], MetricField(metric).value), metric)
  {
    match MetricField(metric)
    case Failure(e) =>
      return Failure(e);
    case Success(f) =>
      var ranked := TopN(data, KeyOf(f), topN);
      var topGenes := ReportTopGenes(ranked, f, metric);
      return Success(topGenes);
  }

  /** The reporting loop of `get_top_genes`: one entry per ranked row, in rank order. */
  method ReportTopGenes(ranked: seq<GeneRecord>, f: GeneField, metric: string) returns (topGenes: seq<TopGene>)
    requires NonIncreasing(ranked, KeyOf(f))
    ensures |topGenes| == |ranked|
    ensures forall i :: 0 <= i < |ranked| ==>
              topGenes[i] == TopGene(ranked[i].gene, ranked[i].gene, FieldValue(ranked[i], f), metric)
    ensures forall i, j :: 0 <= i < j < |topGenes| ==> topGenes[i].metricValue >= topGenes[j].metricValue
  {
    topGenes := [];
    var i := 0;
    while i < |ranked|
      invariant 0 <= i <= |ranked|
      invariant |topGenes| == i
      invariant forall j :: 0 <= j < i ==>
                  topGenes[j] == TopGene(ranked[j].gene, ranked[j].gene, FieldValue(ranked[j], f), metric)
    {
      var item := ranked[i];
      topGenes := topGenes + [TopGene(item.gene, item.gene, FieldValue(item, f), metric)];
      i := i + 1;
    }
    forall j, k | 0 <= j < k < |topGenes|
      ensures topGenes[j].metricValue >= topGenes[k].metricValue
    {
      assert KeyOf(f)(ranked[j]) >= KeyOf(f)(ranked[k]);
    }
  }

  /** A gene-set row; `fields` holds its numeric columns by name. */
  datatype GeneSetItem = GeneSetItem(geneSet: string, phenotype: string, fields: map<string, int>)

  /** One shaped gene-set entry. */
  datatype GeneSetEntry = GeneSetEntry(metricValue: int, metricName: string, geneSet: string, phenotype: string)

  /**
   * The shaping loop of `fetch_gene_genesets`: one entry per row, in row
   * order, carrying the row's value of `metric` under the name `metric`;
   * a row without that column raises KeyError.
   */
  method ShapeGeneGenesets(items: seq<GeneSetItem>, metric: string) returns (r: Result<seq<GeneSetEntry>, PigeanError>)
    ensures r.Failure? <==> exists i :: 0 <= i < |items| && metric !in items[i].fields
    ensures r.Failure? ==> r.error == MissingKey(metric)
    ensures r.Success? ==>
              |r.value| == |items| &&
              forall i :: 0 <= i < |items| ==>
                r.value[i] == GeneSetEntry(items[i].fields[metric], metric, items[i].geneSet, items[i].phenotype)
  {
    var data: seq<GeneSetEntry> := [];
    var i := 0;
    while i < |items|
      invariant 0 <= i <= |items|
      invariant |data| == i
      invariant forall j :: 0 <= j < i ==> metric in items[j].fields
      invariant forall j :: 0 <= j < i ==>
                  data[j] == GeneSetEntry(items[j].fields[metric], metric, items[j].geneSet, items[j].phenotype)
    {
      var item := items[i];
      if metric !in item.fields {
        return Failure(MissingKey(metric));
      }
      data := data + [GeneSetEntry(item.fields[metric], metric, item.geneSet, item.phenotype)];
      i := i + 1;
    }
    return Success(data);
  }

  function MetricValueKey(e: GeneSetEntry): int {
    e.metricValue
  }

  /**
   * `get_gene_genesets` after the fetch: the first `topN` entries by
   * descending metric value. No entry left out has a larger value than an
   * entry kept, and among entries with equal values the earliest are kept,
   * in their input order.
   */
  function GetGeneGenesets(data: seq<GeneSetEntry>, topN: int): (r: seq<GeneSetEntry>)
    ensures topN >= 0 ==> |r| == if topN < |data| then topN else |data|
    ensures forall i, j :: 0 <= i < j < |r| ==> r[i].metricValue >= r[j].metricValue
    ensures multiset(r) <= multiset(data)
    ensures forall i, y :: 0 <= i < |r| && y in multiset(data) - multiset(r) ==> y.metricValue <= r[i].metricValue
    ensures forall k :: |WithKey(r, MetricValueKey, k)| <= |WithKey(data, MetricValueKey, k)| &&
                        WithKey(r, MetricValueKey, k) == WithKey(data, MetricValueKey, k)[..|WithKey(r, MetricValueKey, k)|]
  {
    TopN(data, MetricValueKey, topN)
  }

  /** A factor row; the gene and gene-set lists are `;`-joined strings. */
  datatype FactorItem = FactorItem(labelText: string, geneSetScore: int, geneScore: int, topGenes: string, topGeneSets: string)

  /** One shaped factor. */
  datatype Factor = Factor(factorLabel: string, geneSetScore: int, geneScore: int, topGenes: seq<string>, topGeneSets: seq<string>)

  /**
   * The shaping loop of `fetch_factors`: one factor per row, in row order,
   * with the two `;`-joined lists split apart piece by piece.
   */
  method ShapeFactors(items: seq<FactorItem>) returns (data: seq<Factor>)
    ensures |data| == |items|
    ensures forall i :: 0 <= i < |items| ==>
              data[i] == Factor(items[i].labelText, items[i].geneSetScore, items[i].geneScore,
                                Split(items[i].topGenes, ";"), Split(items[i].topGeneSets, ";"))
  {
    data := [];
    var i := 0;
    while i < |items|
      invariant 0 <= i <= |items|
      invariant |data| == i
      invariant forall j :: 0 <= j < i ==>
                  data[j] == Factor(items[j].labelText, items[j].geneSetScore, items[j].geneScore,
                                    Split(items[j].topGenes, ";"), Split(items[j].topGeneSets, ";"))
    {
      var item := items[i];
      var genes := Split(item.topGenes, ";");
      var topGenes: seq<string> := [];
      var k := 0;
      while k < |genes|
        invariant 0 <= k <= |genes|
        invariant topGenes == genes[..k]
      {
        topGenes := topGenes + [genes[k]];
        k := k + 1;
      }
      var geneSets := Split(item.topGeneSets, ";");
      var topGeneSets: seq<string> := [];
      k := 0;
      while k < |geneSets|
        invariant 0 <= k <= |geneSets|
        invariant topGeneSets == geneSets[..k]
      {
        topGeneSets := topGeneSets + [geneSets[k]];
        k := k + 1;
      }
      assert topGenes == genes && topGeneSets == geneSets;
      data := data + [Factor(item.labelText, item.geneSetScore, item.geneScore, topGenes, topGeneSets)];
      i := i + 1;
    }
  }

  /**
   * The factor lists round-trip: joining them with `;` gives back the row's
   * strings, no piece holds a `;`, and an empty string gives one empty piece.
   */
  lemma FactorListsRoundTrip(item: FactorItem, f: Factor)
    requires f == Factor(item.labelText, item.geneSetScore, item.geneScore,
                         Split(item.topGenes, ";"), Split(item.topGeneSets, ";"))
    ensures Join(f.topGenes, ";") == item.topGenes
    ensures Join(f.topGeneSets, ";") == item.topGeneSets
    ensures forall i :: 0 <= i < |f.topGenes| ==> !Contains(f.topGenes[i], ";")
    ensures forall i :: 0 <= i < |f.topGeneSets| ==> !Contains(f.topGeneSets[i], ";")
    ensures item.topGenes == "" ==> f.topGenes == [""]
    ensures item.topGeneSets == "" ==> f.topGeneSets == [""]
  {
    JoinSplit(item.topGenes, ";");
    JoinSplit(item.topGeneSets, ";");
    SplitPiecesAreFree(item.topGenes, ";");
    SplitPiecesAreFree(item.topGeneSets, ";");
  }

  function GeneSetScoreKey(f: Factor): int {
    f.geneSetScore
  }

  /**
   * `get_factors` after the fetch: all factors, by descending gene-set
   * score, factors with equal scores in their input order.
   */
  function GetFactors(data: seq<Factor>): (r: seq<Factor>)
    ensures multiset(r) == multiset(data)
    ensures forall i, j :: 0 <= i < j < |r| ==> r[i].geneSetScore >= r[j].geneSetScore
    ensures forall k :: WithKey(r, GeneSetScoreKey, k) == WithKey(data, GeneSetScoreKey, k)
  {
    SortDescending(data, GeneSetScoreKey)
  }
}
