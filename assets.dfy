/**
 * `transform_phenotype_data`: each raw phenotype record is classified by
 * substring tests on its identifier and routed to one reconciler, and the
 * records the reconcilers build are concatenated in input order.
 *
 * The reconcilers read the ontology, the preprocessed GCAT table and the
 * portal traits mapping; those are passed in here as `Tables`.
 */
module Assets {
  import opened Wrappers
  import opened Text
  import opened PhenotypeUtils

  /** The reconciler a record is routed to. */
  datatype Source = OrphanetSource | GcatSource | PortalSource

  /**
   * The routing rule, tried in order: an identifier containing `Orphanet`
   * goes to the Orphanet reconciler (even if it also contains
   * `gcat_trait`), then one containing `gcat_trait` to the GCAT
   * reconciler, and every other one to the portal reconciler.
   */
  function Classify(phenotype: string): (s: Source)
    ensures s == OrphanetSource <==> Contains(phenotype, "Orphanet")
    ensures s == GcatSource <==> !Contains(phenotype, "Orphanet") && Contains(phenotype, "gcat_trait")
    ensures s == PortalSource <==> !Contains(phenotype, "Orphanet") && !Contains(phenotype, "gcat_trait")
  {
    if Contains(phenotype, "Orphanet") then OrphanetSource
    else if Contains(phenotype, "gcat_trait") then GcatSource
    else PortalSource
  }

  /** The identifiers of the example records route to their reconcilers. */
  lemma ClassifyOrphanetExample()
    ensures Classify("Genetic_cerebral_small_vessel_disease_Orphanet_477754") == OrphanetSource
  {
    OccursAfter("Genetic_cerebral_small_vessel_disease_", "Orphanet", "_477754");
    assert "Genetic_cerebral_small_vessel_disease_Orphanet_477754" ==
           "Genetic_cerebral_small_vessel_disease_" + "Orphanet" + "_477754";
  }

  lemma ClassifyGcatExample()
    ensures Classify("gcat_trait_trait_in_response_to_platinum") == GcatSource
  {
    var gcat := "gcat_trait_trait_in_response_to_platinum";
    assert OccursAt(gcat, "gcat_trait", 0) by { assert gcat[0..10] == "gcat_trait"; }
    NotContainsFirstChar(gcat, "Orphanet");
  }

  lemma ClassifyPortalExample()
    ensures Classify("eGFRcrcys") == PortalSource
  {
    NotContainsShorter("eGFRcrcys", "gcat_trait");
    NotContainsFirstChar("eGFRcrcys", "Orphanet");
  }

  /** An Orphanet id wins over a GCAT prefix. */
  lemma ClassifyMixedExample()
    ensures Classify("gcat_trait_Orphanet_1") == OrphanetSource
  {
    OccursAfter("gcat_trait_", "Orphanet", "_1");
    assert "gcat_trait_Orphanet_1" == "gcat_trait_" + "Orphanet" + "_1";
  }

  /** The lookup tables the reconcilers read. */
  datatype Tables = Tables(ontology: seq<OntologyRow>, gcat: seq<GcatEntry>, portal: seq<PortalRow>)

  /** One record of the fetched phenotype list. */
  datatype RawPhenotype = RawPhenotype(phenotype: string, phenotypeName: string)

  /** An element of the transformed list: a phenotype or a GWAS study. */
  datatype Entity = PhenotypeEntity(phenotype: PhenotypeRecord) | GwasEntity(gwas: GwasRecord)

  function StudyEntities(studies: seq<GwasRecord>): (r: seq<Entity>)
    ensures |r| == |studies|
    ensures forall i :: 0 <= i < |studies| ==> r[i] == GwasEntity(studies[i])
  {
    seq(|studies|, i requires 0 <= i < |studies| => GwasEntity(studies[i]))
  }

  /**
   * What a GCAT reconciliation adds: nothing for `None`, else the phenotype
   * immediately followed by its studies, in order.
   */
  function GcatEntities(res: Option<GcatResult>): (r: seq<Entity>)
    ensures res.None? ==> r == []
    ensures res.Some? ==>
              |r| == 1 + |res.value.studies| && r[0] == PhenotypeEntity(res.value.phenotype) &&
              r[1..] == StudyEntities(res.value.studies)
  {
    match res
    case None => []
    case Some(g) => [PhenotypeEntity(g.phenotype)] + StudyEntities(g.studies)
  }

  /** What one record adds to the output: nothing when its reconciler yields `None`. */
  function Contribution(tables: Tables, item: RawPhenotype): seq<Entity> {
    match Classify(item.phenotype)
    case OrphanetSource =>
      (match CreateOrphanetPhenotype(tables.ontology, item.phenotype, item.phenotypeName)
       case None => []
       case Some(p) => [PhenotypeEntity(p)])
    case GcatSource =>
      GcatEntities(GcatPhenotype(tables.gcat, item.phenotype, item.phenotypeName))
    case PortalSource =>
      [PhenotypeEntity(CreatePortalPhenotype(tables.portal, item.phenotype, item.phenotypeName))]
  }

  /** The contribution of each record, in input order. */
  function Contributions(tables: Tables, items: seq<RawPhenotype>): (r: seq<seq<Entity>>)
    ensures |r| == |items|
  {
    seq(|items|, i requires 0 <= i < |items| => Contribution(tables, items[i]))
  }

  /** The parts, one after the other. */
  function Concat<T>(parts: seq<seq<T>>): seq<T> {
    if parts == [] then [] else Concat(parts[..|parts| - 1]) + parts[|parts| - 1]
  }

  lemma {:induction false} ConcatAppend<T>(a: seq<seq<T>>, b: seq<seq<T>>)
    ensures Concat(a + b) == Concat(a) + Concat(b)
    decreases |b|
  {
    if b == [] {
      assert a + b == a;
    } else {
      var front := b[..|b| - 1];
      ConcatAppend(a, front);
      assert (a + b)[..|a + b| - 1] == a + front;
      assert (a + b)[|a + b| - 1] == b[|b| - 1];
      assert Concat(a + b) == Concat(a + front) + b[|b| - 1];
      assert Concat(b) == Concat(front) + b[|b| - 1];
    }
  }

  /** The transformed list: the records' contributions, concatenated in input order. */
  function Transform(tables: Tables, items: seq<RawPhenotype>): seq<Entity> {
    Concat(Contributions(tables, items))
  }

  /** Adding one record at the end adds its contribution at the end. */
  lemma TransformSnoc(tables: Tables, items: seq<RawPhenotype>, item: RawPhenotype)
    ensures Transform(tables, items + [item]) == Transform(tables, items) + Contribution(tables, item)
  {
    var parts := Contributions(tables, items + [item]);
    assert parts[..|items|] == Contributions(tables, items);
    assert parts[|items|] == Contribution(tables, item);
  }

  /** Extending the processed prefix by one record appends that record's contribution. */
  lemma TransformPrefixStep(tables: Tables, items: seq<RawPhenotype>, i: nat)
    requires i < |items|
    ensures Transform(tables, items[..i + 1]) == Transform(tables, items[..i]) + Contribution(tables, items[i])
  {
    assert items[..i + 1] == items[..i] + [items[i]];
    TransformSnoc(tables, items[..i], items[i]);
  }

  /**
   * `transform_phenotype_data`: for each record, call the matching
   * reconciler and append what it built.
   */
  method TransformPhenotypeData(tables: Tables, items: seq<RawPhenotype>) returns (transformed: seq<Entity>)
    ensures transformed == Transform(tables, items)
  {
    transformed := [];
    var i := 0;
    while i < |items|
      invariant 0 <= i <= |items|
      invariant transformed == Transform(tables, items[..i])
    {
      TransformPrefixStep(tables, items, i);
      var item := items[i];
      var built := Reconcile(tables, item);
      transformed := transformed + built;
      i := i + 1;
    }
    assert items[..i] == items;
  }

  /**
   * The body of the loop for one record: test the identifier, call the
   * matching reconciler, and keep what it built unless it is `None`.
   */
  method Reconcile(tables: Tables, item: RawPhenotype) returns (built: seq<Entity>)
    ensures built == Contribution(tables, item)
  {
    built := [];
    if Contains(item.phenotype, "Orphanet") {
      var phenotype := CreateOrphanetPhenotype(tables.ontology, item.phenotype, item.phenotypeName);
      if phenotype.Some? {
        built := built + [PhenotypeEntity(phenotype.value)];
      }
    } else if Contains(item.phenotype, "gcat_trait") {
      var result := CreateGcatPhenotype(tables.gcat, item.phenotype, item.phenotypeName);
      if result.Some? {
        built := built + [PhenotypeEntity(result.value.phenotype)];
        built := built + StudyEntities(result.value.studies);
      }
    } else {
      var phenotype := CreatePortalPhenotype(tables.portal, item.phenotype, item.phenotypeName);
      built := built + [PhenotypeEntity(phenotype)];
    }
  }

  /**
   * The output of a concatenation of inputs is the concatenation of their
   * outputs: order is kept, and no record affects what another adds.
   */
  lemma TransformAppend(tables: Tables, a: seq<RawPhenotype>, b: seq<RawPhenotype>)
    ensures Transform(tables, a + b) == Transform(tables, a) + Transform(tables, b)
  {
    var ca, cb := Contributions(tables, a), Contributions(tables, b);
    forall i | 0 <= i < |a + b|
      ensures Contributions(tables, a + b)[i] == (ca + cb)[i]
    {
      if i < |a| { assert (a + b)[i] == a[i]; } else { assert (a + b)[i] == b[i - |a|]; }
    }
    assert Contributions(tables, a + b) == ca + cb;
    ConcatAppend(Contributions(tables, a), Contributions(tables, b));
  }

  /** The output is each record's contribution in place: what comes before record `k`, its part, what comes after. */
  lemma TransformAround(tables: Tables, items: seq<RawPhenotype>, k: nat)
    requires k < |items|
    ensures Transform(tables, items) ==
            Transform(tables, items[..k]) + Contribution(tables, items[k]) + Transform(tables, items[k + 1..])
  {
    var before, x, after := items[..k], items[k], items[k + 1..];
    assert items == before + [x] + after;
    TransformAppend(tables, before + [x], after);
    TransformSnoc(tables, before, x);
  }

  /** An Orphanet record contributes its phenotype, or nothing when the lookup finds nothing. */
  lemma OrphanetContribution(tables: Tables, item: RawPhenotype)
    requires Classify(item.phenotype) == OrphanetSource
    ensures var p := CreateOrphanetPhenotype(tables.ontology, item.phenotype, item.phenotypeName);
            Contribution(tables, item) == if p.None? then [] else [PhenotypeEntity(p.value)]
  {
  }

  /**
   * A GCAT record contributes nothing when its trait is not in the table,
   * and otherwise its phenotype immediately followed by its studies, in order.
   */
  lemma GcatContribution(tables: Tables, item: RawPhenotype)
    requires Classify(item.phenotype) == GcatSource
    ensures var res := GcatPhenotype(tables.gcat, item.phenotype, item.phenotypeName);
            Contribution(tables, item) == GcatEntities(res)
    ensures (forall e :: e in tables.gcat ==> e.traitName != item.phenotype) ==> Contribution(tables, item) == []
  {
    GcatPhenotypeFound(tables.gcat, item.phenotype, item.phenotypeName);
  }

  /** A portal record contributes exactly one phenotype. */
  lemma PortalContribution(tables: Tables, item: RawPhenotype)
    requires Classify(item.phenotype) == PortalSource
    ensures Contribution(tables, item) == [PhenotypeEntity(CreatePortalPhenotype(tables.portal, item.phenotype, item.phenotypeName))]
  {
  }

  /** Records routed to the Orphanet reconciler that it resolves. */
  function ResolvedOrphanetCount(tables: Tables, items: seq<RawPhenotype>): nat {
    if items == [] then 0
    else
      var item := items[|items| - 1];
      ResolvedOrphanetCount(tables, items[..|items| - 1]) +
      (if Classify(item.phenotype) == OrphanetSource &&
          CreateOrphanetPhenotype(tables.ontology, item.phenotype, item.phenotypeName).Some? then 1 else 0)
  }

  /** Records routed to the portal reconciler. */
  function PortalCount(items: seq<RawPhenotype>): nat {
    if items == [] then 0
    else PortalCount(items[..|items| - 1]) + (if Classify(items[|items| - 1].phenotype) == PortalSource then 1 else 0)
  }

  /** One plus the number of studies, summed over the GCAT records whose trait is found. */
  function GcatOutputCount(tables: Tables, items: seq<RawPhenotype>): nat {
    if items == [] then 0
    else
      var item := items[|items| - 1];
      var res := GcatPhenotype(tables.gcat, item.phenotype, item.phenotypeName);
      GcatOutputCount(tables, items[..|items| - 1]) +
      (if Classify(item.phenotype) == GcatSource && res.Some? then 1 + |res.value.studies| else 0)
  }

  /**
   * The output length is the number of resolved Orphanet records, plus the
   * number of portal records, plus one and the study count for each GCAT
   * record whose trait is found.
   */
  lemma {:induction false} TransformLength(tables: Tables, items: seq<RawPhenotype>)
    ensures |Transform(tables, items)| ==
            ResolvedOrphanetCount(tables, items) + PortalCount(items) + GcatOutputCount(tables, items)
    decreases |items|
  {
    if items != [] {
      var front, last := items[..|items| - 1], items[|items| - 1];
      assert items == front + [last];
      TransformSnoc(tables, front, last);
      TransformLength(tables, front);
      match Classify(last.phenotype)
      case OrphanetSource => OrphanetContribution(tables, last);
      case GcatSource => GcatContribution(tables, last);
      case PortalSource => PortalContribution(tables, last);
    }
  }

  // ---------------------------------------------------------------------
  // The GCAT call as written
  // ---------------------------------------------------------------------

  /** The `TypeError` raised by unpacking the `None` of a GCAT trait that is not in the table. */
  datatype TransformError = CannotUnpackNone(phenotype: string)

  /**
   * One record as the loop body is written: the GCAT reconciler's result is
   * unpacked into a phenotype and its studies before `if phenotype` looks at it, so a
   * `None` result raises instead of being skipped.
   */
  function ContributionAsWritten(tables: Tables, item: RawPhenotype): Result<seq<Entity>, TransformError> {
    if Classify(item.phenotype) == GcatSource && GcatPhenotype(tables.gcat, item.phenotype, item.phenotypeName).None? then
      Failure(CannotUnpackNone(item.phenotype))
    else
      Success(Contribution(tables, item))
  }

  /** The loop as written: the first raising record aborts the whole transformation. */
  function TransformAsWritten(tables: Tables, items: seq<RawPhenotype>): Result<seq<Entity>, TransformError> {
    if items == [] then Success([])
    else
      match TransformAsWritten(tables, items[..|items| - 1])
      case Failure(e) => Failure(e)
      case Success(front) =>
        match ContributionAsWritten(tables, items[|items| - 1])
        case Failure(e) => Failure(e)
        case Success(c) => Success(front + c)
  }

  /**
   * As written, a single GCAT record whose trait is not in the table makes
   * the whole transformation raise.
   */
  lemma {:induction false} UnmatchedGcatRecordAborts(tables: Tables, items: seq<RawPhenotype>, k: nat)
    requires k < |items|
    requires Classify(items[k].phenotype) == GcatSource
    requires forall e :: e in tables.gcat ==> e.traitName != items[k].phenotype
    ensures TransformAsWritten(tables, items).Failure?
    decreases |items|
  {
    if k < |items| - 1 {
      assert items[..|items| - 1][k] == items[k];
      UnmatchedGcatRecordAborts(tables, items[..|items| - 1], k);
    } else {
      GcatPhenotypeFound(tables.gcat, items[k].phenotype, items[k].phenotypeName);
    }
  }

  /**
   * The intended behaviour, which `Transform` models, drops such a record
   * and keeps the output of every other record, in order.
   */
  lemma UnmatchedGcatRecordIsDropped(tables: Tables, items: seq<RawPhenotype>, k: nat)
    requires k < |items|
    requires Classify(items[k].phenotype) == GcatSource
    requires forall e :: e in tables.gcat ==> e.traitName != items[k].phenotype
    ensures Transform(tables, items) == Transform(tables, items[..k]) + Transform(tables, items[k + 1..])
  {
    GcatContribution(tables, items[k]);
    TransformAround(tables, items, k);
  }

  /** Where the code as written does not raise, it returns what `Transform` does. */
  lemma {:induction false} AsWrittenAgreesWhenItReturns(tables: Tables, items: seq<RawPhenotype>)
    ensures TransformAsWritten(tables, items).Success? ==> TransformAsWritten(tables, items).value == Transform(tables, items)
    decreases |items|
  {
    if items != [] {
      var front, last := items[..|items| - 1], items[|items| - 1];
      assert items == front + [last];
      TransformSnoc(tables, front, last);
      AsWrittenAgreesWhenItReturns(tables, front);
    }
  }

  /** The concrete case: one GCAT record and an empty GCAT table. */
  lemma UnmatchedGcatExample(tables: Tables)
    requires tables.gcat == []
    ensures TransformAsWritten(tables, [RawPhenotype("gcat_trait_x", "x")]).Failure?
    ensures Transform(tables, [RawPhenotype("gcat_trait_x", "x")]) == []
  {
    var item := RawPhenotype("gcat_trait_x", "x");
    assert OccursAt(item.phenotype, "gcat_trait", 0) by { assert item.phenotype[0..10] == "gcat_trait"; }
    assert !Contains(item.phenotype, "Orphanet") by {
      forall i | 0 <= i <= |item.phenotype|
        ensures !OccursAt(item.phenotype, "Orphanet", i)
      {
        if i + 8 <= |item.phenotype| {
          assert item.phenotype[i..i + 8][0] == item.phenotype[i];
        }
      }
    }
    UnmatchedGcatRecordAborts(tables, [item], 0);
    UnmatchedGcatRecordIsDropped(tables, [item], 0);
    assert [item][..0] == [] && [item][1..] == [];
  }
}
