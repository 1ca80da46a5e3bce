/**
 * Phenotype ingestion: the GCAT table preprocessing, the Orphanet ontology
 * lookup, and the three reconcilers that turn a raw phenotype identifier
 * into a phenotype record (and, for GCAT traits, its studies).
 *
 * Tables are sequences of rows, a missing cell (`NaN`) is `None`, and the
 * ontology is the sequence of solutions of the lookup's graph pattern
 * before its `FILTER`, in the order the store yields them.
 */
module PhenotypeUtils {
  import opened Wrappers
  import opened Text
  import opened PortalModel
  import opened Seqs

  // ---------------------------------------------------------------------
  // preprocess_gcat_info
  // ---------------------------------------------------------------------

  const GcatTraitPrefix := "gcat_trait_"

  /**
   * Column 13 of a GCAT row (the trait name): a missing or empty cell gives
   * `None`; otherwise spaces become `_`, every character outside
   * `[A-Za-z0-9_]` is dropped, and `gcat_trait_` is put in front.
   */
  function ProcessTraitName(cell: Option<string>): (r: Option<string>)
    ensures r.None? <==> cell.None? || cell.value == ""
    ensures r.Some? ==> |GcatTraitPrefix| <= |r.value| && r.value[..|GcatTraitPrefix|] == GcatTraitPrefix
    ensures r.Some? ==> forall i :: |GcatTraitPrefix| <= i < |r.value| ==> IsWordChar(r.value[i])
  {
    if cell.None? || cell.value == "" then None
    else Some(GcatTraitPrefix + KeepWordChars(ReplaceChar(cell.value, ' ', '_')))
  }

  /**
   * After the prefix, the processed trait name holds each word character of
   * the cell as often as the cell does, plus one `_` for every space, and
   * nothing else.
   */
  lemma TraitNameCharacters(s: string, c: char)
    requires s != ""
    ensures var r := ProcessTraitName(Some(s)).value;
            multiset(r[|GcatTraitPrefix|..])[c] ==
            (if IsWordChar(c) then multiset(s)[c] else 0) + (if c == '_' then multiset(s)[' '] else 0)
  {
    SpacesBecomeUnderscores(s, c);
    var r := ProcessTraitName(Some(s)).value;
    assert r[|GcatTraitPrefix|..] == KeepWordChars(ReplaceChar(s, ' ', '_'));
  }

  /** A non-empty cell with neither word characters nor spaces still gives the bare prefix, and the row is kept. */
  lemma TraitNameOfSymbolsIsPrefix(s: string)
    requires s != ""
    requires forall i :: 0 <= i < |s| ==> !IsWordChar(s[i]) && s[i] != ' '
    ensures ProcessTraitName(Some(s)) == Some(GcatTraitPrefix)
  {
    var k := KeepWordChars(ReplaceChar(s, ' ', '_'));
    forall c
      ensures multiset(k)[c] == 0
    {
      SpacesBecomeUnderscores(s, c);
      if IsWordChar(c) {
        assert c !in s;
      }
      if c == '_' {
        assert ' ' !in s;
      }
    }
    assert multiset(k) == multiset{};
    assert |k| == |multiset(k)|;
    assert k == [];
    assert GcatTraitPrefix + k == GcatTraitPrefix;
  }

  /**
   * Column 14 of a GCAT row (the trait URI): a missing or empty cell gives
   * `None`; otherwise the trimmed value's last `/`-segment with every `_`
   * replaced by `:`. The result holds neither `/` nor `_`.
   */
  function ProcessCurie(cell: Option<string>): (r: Option<string>)
    ensures r.None? <==> cell.None? || cell.value == ""
    ensures r.Some? ==> '/' !in r.value && '_' !in r.value
  {
    if cell.None? || cell.value == "" then None
    else
      var last := LastPiece(Strip(cell.value), "/");
      LastPieceAfterLastSeparator(Strip(cell.value), "/");
      ContainsChar(last, '/');
      Some(ReplaceChar(last, '_', ':'))
  }

  /**
   * The processed CURIE is read off the end of the trimmed value: it is as
   * long as the text after the last `/` (the whole value when there is
   * none), and holds that text with `_` turned into `:`.
   */
  lemma CurieIsLastSegment(s: string)
    requires s != ""
    ensures EndsWithReplacedSegment(Strip(s), ProcessCurie(Some(s)).value)
  {
    var t := Strip(s);
    var r := ProcessCurie(Some(s)).value;
    assert r == ReplaceChar(LastPiece(t, "/"), '_', ':');
    LastSegmentReplaced(t, r);
  }

  /**
   * `r` is the end of `t` after its last `/` (all of `t` when there is
   * none), with every `_` turned into `:`.
   */
  predicate EndsWithReplacedSegment(t: string, r: string) {
    && |r| <= |t|
    && ('/' !in t ==> |r| == |t|)
    && ('/' in t ==> |r| < |t| && t[|t| - |r| - 1] == '/')
    && forall i :: 0 <= i < |r| ==> r[i] == if t[|t| - |r| + i] == '_' then ':' else t[|t| - |r| + i]
  }

  /** The last `/`-segment of `t` with `_` turned into `:`, read off the end of `t`. */
  lemma LastSegmentReplaced(t: string, r: string)
    requires r == ReplaceChar(LastPiece(t, "/"), '_', ':')
    ensures EndsWithReplacedSegment(t, r)
  {
    var last := LastPiece(t, "/");
    LastPieceAfterLastSeparator(t, "/");
    ContainsChar(t, '/');
    if '/' in t {
      assert t[|t| - |last| - 1..] == "/" + last;
      assert t[|t| - |last| - 1] == '/';
      forall i | 0 <= i < |last|
        ensures last[i] == t[|t| - |last| + i]
      {
        assert t[|t| - |last| - 1..][i + 1] == last[i];
      }
    }
  }

  /** One row of the GCAT catalogue, reduced to the columns the reconcilers read. */
  datatype GcatRow = GcatRow(traitCell: Option<string>, curieCell: Option<string>, accession: string, study: string)

  /** A row of the preprocessed table: both processed columns are present. */
  datatype GcatEntry = GcatEntry(traitName: string, curie: string, accession: string, study: string)

  /** What one row contributes to the preprocessed table: itself, or nothing when a processed column is `None`. */
  function EntryOf(row: GcatRow): seq<GcatEntry> {
    match (ProcessTraitName(row.traitCell), ProcessCurie(row.curieCell))
    case (Some(t), Some(c)) => [GcatEntry(t, c, row.accession, row.study)]
    case _ => []
  }

  /** The rows kept by `dropna` on the two processed columns, in table order. */
  function Preprocessed(rows: seq<GcatRow>): seq<GcatEntry> {
    FlatMap(EntryOf, rows)
  }

  /** Preprocessing works row by row: the table's order is kept and rows do not affect each other. */
  lemma PreprocessedAppend(a: seq<GcatRow>, b: seq<GcatRow>)
    ensures Preprocessed(a + b) == Preprocessed(a) + Preprocessed(b)
  {
    FlatMapAppend(EntryOf, a, b);
  }

  /** A row is kept exactly when both of its processed columns are present. */
  lemma PreprocessedRow(row: GcatRow)
    ensures |Preprocessed([row])| <= 1
    ensures Preprocessed([row]) != [] <==>
              row.traitCell.Some? && row.traitCell.value != "" && row.curieCell.Some? && row.curieCell.value != ""
    ensures Preprocessed([row]) != [] ==>
              Preprocessed([row])[0] == GcatEntry(ProcessTraitName(row.traitCell).value, ProcessCurie(row.curieCell).value,
                                                  row.accession, row.study)
  {
    assert [row][..0] == [];
    assert Preprocessed([row]) == FlatMap(EntryOf, []) + EntryOf(row);
  }

  /** Preprocessing one more row of the table adds that row's entry, if any. */
  lemma PreprocessedStep(table: seq<GcatRow>, i: nat)
    requires i < |table|
    ensures Preprocessed(table[..i + 1]) ==
            Preprocessed(table[..i]) +
            (if ProcessTraitName(table[i].traitCell).Some? && ProcessCurie(table[i].curieCell).Some?
             then [GcatEntry(ProcessTraitName(table[i].traitCell).value, ProcessCurie(table[i].curieCell).value,
                             table[i].accession, table[i].study)]
             else [])
  {
    assert table[..i + 1][..i] == table[..i];
    assert table[..i + 1][i] == table[i];
    assert Preprocessed(table[..i + 1]) == Preprocessed(table[..i]) + EntryOf(table[i]);
  }

  /**
   * The GCAT table object. Preprocessing adds the two processed columns to
   * it in place and hands back the rows where both are present.
   */
  class GcatTable {
    var rows: seq<GcatRow>
    var processedTraitName: seq<Option<string>>
    var processedCurie: seq<Option<string>>

    constructor (rows: seq<GcatRow>)
      ensures this.rows == rows && processedTraitName == [] && processedCurie == []
    {
      this.rows := rows;
      processedTraitName := [];
      processedCurie := [];
    }

    /** `preprocess_gcat_info`: add the processed columns, then drop the rows missing either. */
    method Preprocess() returns (filtered: seq<GcatEntry>)
      modifies this
      ensures rows == old(rows)
      ensures |processedTraitName| == |rows| && |processedCurie| == |rows|
      ensures forall i :: 0 <= i < |rows| ==>
                processedTraitName[i] == ProcessTraitName(rows[i].traitCell) &&
                processedCurie[i] == ProcessCurie(rows[i].curieCell)
      ensures filtered == Preprocessed(rows)
    {
      var table := rows;
      var names := seq(|table|, i requires 0 <= i < |table| => ProcessTraitName(table[i].traitCell));
      var curies := seq(|table|, i requires 0 <= i < |table| => ProcessCurie(table[i].curieCell));
      processedTraitName := names;
      processedCurie := curies;
      filtered := DropIncomplete(table, names, curies);
    }
  }

  /**
   * The `dropna` step of `preprocess_gcat_info`: keep, in table order, the
   * rows whose two processed columns are both present.
   */
  method DropIncomplete(table: seq<GcatRow>, names: seq<Option<string>>, curies: seq<Option<string>>)
    returns (filtered: seq<GcatEntry>)
    requires |names| == |table| && |curies| == |table|
    requires forall i :: 0 <= i < |table| ==>
               names[i] == ProcessTraitName(table[i].traitCell) && curies[i] == ProcessCurie(table[i].curieCell)
    ensures filtered == Preprocessed(table)
  {
    filtered := [];
    var i := 0;
    while i < |table|
      invariant 0 <= i <= |table|
      invariant filtered == Preprocessed(table[..i])
    {
      PreprocessedStep(table, i);
      if names[i].Some? && curies[i].Some? {
        filtered := filtered + [GcatEntry(names[i].value, curies[i].value, table[i].accession, table[i].study)];
      }
      i := i + 1;
    }
    assert table[..i] == table;
  }

  // ---------------------------------------------------------------------
  // lookup_trait_with_db_refs
  // ---------------------------------------------------------------------

  const OrphanetUriPrefix := "http://www.orpha.net/ORDO/Orphanet_"
  const NoDescription := "No description available"

  /** An RDF term bound in a solution: a literal with its lexical form, or an IRI. */
  datatype Term = Literal(lexical: string) | Iri(iri: string)

  /** One solution of the lookup's graph pattern; the two optional parts may be unbound. */
  datatype OntologyRow = OntologyRow(traitUri: string, labelText: string, description: Option<Term>, dbXref: Option<Term>)

  /** The record the lookup returns. */
  datatype TraitInfo = TraitInfo(orphanetId: string, traitUri: string, labelText: string, description: string, dbRefs: seq<string>)

  /** The truth value of a bound term: a literal with an empty lexical form is false. */
  predicate Truthy(t: Option<Term>) {
    t.Some? && (t.value.Literal? ==> t.value.lexical != "")
  }

  function TermText(t: Term): string {
    if t.Literal? then t.lexical else t.iri
  }

  /** The description of the first solution, or the default when it is unbound or false. */
  function DescriptionOf(row: OntologyRow): string {
    if Truthy(row.description) then TermText(row.description.value) else NoDescription
  }

  /** The cross-reference a solution adds: a bound, non-empty literal. */
  predicate IsLiteralXref(row: OntologyRow) {
    Truthy(row.dbXref) && row.dbXref.value.Literal?
  }

  /** The `FILTER` on one solution: the trait's URI starts with the Orphanet prefix followed by the id. */
  predicate Passes(row: OntologyRow, orphaId: string) {
    OrphanetUriPrefix + orphaId <= row.traitUri
  }

  function PassesFor(orphaId: string): OntologyRow -> bool {
    (row: OntologyRow) => Passes(row, orphaId)
  }

  /** The solutions that pass the `FILTER`, in solution order. */
  function Matching(graph: seq<OntologyRow>, orphaId: string): (r: seq<OntologyRow>)
    ensures |r| <= |graph|
    ensures forall row :: row in r <==> row in graph && Passes(row, orphaId)
  {
    FilterMembers(PassesFor(orphaId), graph);
    Filter(PassesFor(orphaId), graph)
  }

  /** A single solution is kept exactly when it passes. */
  lemma MatchingSingle(row: OntologyRow, orphaId: string)
    ensures Matching([row], orphaId) == if Passes(row, orphaId) then [row] else []
  {
    FilterSnoc(PassesFor(orphaId), [], row);
    assert [] + [row] == [row];
  }

  /** The filter works solution by solution: passing solutions keep their order and their repetitions. */
  lemma MatchingAppend(a: seq<OntologyRow>, b: seq<OntologyRow>, orphaId: string)
    ensures Matching(a + b, orphaId) == Matching(a, orphaId) + Matching(b, orphaId)
  {
    FilterAppend(PassesFor(orphaId), a, b);
  }

  /** The first solution kept by the filter is the earliest solution that passes it. */
  lemma MatchingFirst(graph: seq<OntologyRow>, orphaId: string)
    requires Matching(graph, orphaId) != []
    ensures exists i :: 0 <= i < |graph| && Passes(graph[i], orphaId) &&
                        (forall j :: 0 <= j < i ==> !Passes(graph[j], orphaId)) &&
                        Matching(graph, orphaId)[0] == graph[i]
  {
    var i := FilterFirstIndex(PassesFor(orphaId), graph);
    assert forall j :: 0 <= j < i ==> !PassesFor(orphaId)(graph[j]);
  }

  /** The literal cross-references of the solutions, in solution order, duplicates kept. */
  function LiteralXrefs(rows: seq<OntologyRow>): (r: seq<string>)
    ensures |r| <= |rows|
  {
    if rows == [] then []
    else LiteralXrefs(rows[..|rows| - 1]) +
         (if IsLiteralXref(rows[|rows| - 1]) then [rows[|rows| - 1].dbXref.value.lexical] else [])
  }

  /** Cross-references are collected solution by solution, so their order follows the solutions'. */
  lemma {:induction false} LiteralXrefsAppend(a: seq<OntologyRow>, b: seq<OntologyRow>)
    ensures LiteralXrefs(a + b) == LiteralXrefs(a) + LiteralXrefs(b)
    decreases |b|
  {
    if b == [] {
      assert a + b == a;
    } else {
      LiteralXrefsAppend(a, b[..|b| - 1]);
      assert (a + b)[..|a + b| - 1] == a + b[..|b| - 1];
    }
  }

  /**
   * What the lookup returns: `None` when no solution passes the filter;
   * otherwise the first solution's URI, label and description (defaulted),
   * and the literal cross-references of all of them.
   */
  function LookupTrait(graph: seq<OntologyRow>, orphaId: string): (r: Option<TraitInfo>)
    ensures r.None? <==> forall row :: row in graph ==> !(OrphanetUriPrefix + orphaId <= row.traitUri)
    ensures r.Some? ==>
              r.value.orphanetId == orphaId &&
              OrphanetUriPrefix + orphaId <= r.value.traitUri &&
              exists row :: row in graph && row.traitUri == r.value.traitUri && row.labelText == r.value.labelText
    ensures r.Some? ==>
              exists i :: 0 <= i < |graph| && Passes(graph[i], orphaId) &&
                          (forall j :: 0 <= j < i ==> !Passes(graph[j], orphaId)) &&
                          r.value.traitUri == graph[i].traitUri && r.value.labelText == graph[i].labelText &&
                          r.value.description == DescriptionOf(graph[i])
    ensures r.Some? ==> r.value.dbRefs == LiteralXrefs(Matching(graph, orphaId))
  {
    var results := Matching(graph, orphaId);
    if results == [] then None
    else
      assert results[0] in results;
      MatchingFirst(graph, orphaId);
      Some(TraitInfo(orphaId, results[0].traitUri, results[0].labelText, DescriptionOf(results[0]), LiteralXrefs(results)))
  }

  /**
   * `lookup_trait_with_db_refs` after the query: fold the solutions into the
   * record, the first solution fixing URI, label and description and every
   * solution adding its literal cross-reference; a record whose URI is
   * still unset (or empty) gives `None`.
   */
  method LookupTraitWithDbRefs(graph: seq<OntologyRow>, orphaId: string) returns (r: Option<TraitInfo>)
    ensures r == LookupTrait(graph, orphaId)
  {
    var results := Matching(graph, orphaId);
    var traitUri: Option<string> := None;
    var labelText: Option<string> := None;
    var description: Option<string> := None;
    var dbRefs: seq<string> := [];
    var i := 0;
    while i < |results|
      invariant 0 <= i <= |results|
      invariant i == 0 ==> traitUri.None? && labelText.None? && description.None?
      invariant i > 0 ==>
                  traitUri == Some(results[0].traitUri) && labelText == Some(results[0].labelText) &&
                  description == Some(DescriptionOf(results[0]))
      invariant dbRefs == LiteralXrefs(results[..i])
    {
      var row := results[i];
      if traitUri.None? {
        traitUri := Some(row.traitUri);
        labelText := Some(row.labelText);
        description := Some(if Truthy(row.description) then TermText(row.description.value) else NoDescription);
      }
      if Truthy(row.dbXref) && row.dbXref.value.Literal? {
        dbRefs := dbRefs + [row.dbXref.value.lexical];
      }
      assert results[..i + 1][..i] == results[..i];
      i := i + 1;
    }
    assert results[..i] == results;
    if results != [] {
      assert results[0] in results;
    }
    if traitUri.Some? && traitUri.value != "" {
      r := Some(TraitInfo(orphaId, traitUri.value, labelText.value, description.value, dbRefs));
    } else {
      r := None;
    }
  }

  /**
   * The filter is a prefix test on the URI, so the lookup for an id also
   * admits every longer id it begins: a graph holding only `Orphanet_<id><d>`
   * still answers the lookup for `<id>`.
   */
  lemma PrefixFilterAdmitsLongerIds(row: OntologyRow, orphaId: string, more: string)
    requires row.traitUri == OrphanetUriPrefix + orphaId + more
    ensures LookupTrait([row], orphaId).Some?
    ensures LookupTrait([row], orphaId).value.traitUri == row.traitUri
  {
    assert [row][..0] == [];
    assert OrphanetUriPrefix + orphaId <= row.traitUri;
  }

  // ---------------------------------------------------------------------
  // The reconcilers
  // ---------------------------------------------------------------------

  /**
   * The field values of a constructed `Phenotype`. Built from plain strings
   * they pass `__post_init__` unchanged (see `NewPhenotype`).
   */
  datatype PhenotypeRecord = PhenotypeRecord(id: string, name: string, displayName: string, description: string, hasXrefs: seq<string>)

  /** A GWAS study of a GCAT trait, linked to the phenotype record it was built with. */
  datatype GwasRecord = GwasRecord(id: string, description: string, phenotype: PhenotypeRecord)

  /** The Orphanet id of a raw identifier: the text after its last `_`. */
  function OrphanetId(phenotype: string): (id: string)
    ensures '_' !in id
    ensures '_' !in phenotype ==> id == phenotype
    ensures '_' in phenotype ==> |id| < |phenotype| && phenotype[|phenotype| - |id| - 1..] == "_" + id
  {
    LastPieceAfterLastSeparator(phenotype, "_");
    ContainsChar(LastPiece(phenotype, "_"), '_');
    ContainsChar(phenotype, '_');
    LastPiece(phenotype, "_")
  }

  /** The identifier of the Orphanet example record resolves to the numeric id after the last `_`. */
  lemma OrphanetIdExample()
    ensures OrphanetId("Genetic_cerebral_small_vessel_disease_Orphanet_477754") == "477754"
  {
    ContainsChar("477754", '_');
    LastPieceAfter("Genetic_cerebral_small_vessel_disease_Orphanet", "_", "477754");
    assert "Genetic_cerebral_small_vessel_disease_Orphanet" + "_" + "477754"
        == "Genetic_cerebral_small_vessel_disease_Orphanet_477754";
  }

  /**
   * `create_orphanet_phenotype`: look up the Orphanet id of the identifier;
   * `None` when the lookup finds nothing, otherwise a phenotype with the
   * resolved URI as id, the raw identifier as name, the given display
   * name, and the lookup's description and cross-references.
   */
  function CreateOrphanetPhenotype(graph: seq<OntologyRow>, phenotype: string, phenotypeName: string): (r: Option<PhenotypeRecord>)
    ensures r.None? <==> LookupTrait(graph, OrphanetId(phenotype)).None?
    ensures r.None? <==> forall row :: row in graph ==> !(OrphanetUriPrefix + OrphanetId(phenotype) <= row.traitUri)
    ensures r.Some? ==>
              var info := LookupTrait(graph, OrphanetId(phenotype)).value;
              r.value.name == phenotype && r.value.displayName == phenotypeName &&
              r.value.id == info.traitUri && OrphanetUriPrefix + OrphanetId(phenotype) <= r.value.id &&
              r.value.description == info.description && r.value.hasXrefs == info.dbRefs
  {
    match LookupTrait(graph, OrphanetId(phenotype))
    case None => None
    case Some(info) => Some(PhenotypeRecord(info.traitUri, phenotype, phenotypeName, info.description, info.dbRefs))
  }

  /** `s` with later repetitions of an element removed: `drop_duplicates`, keeping first occurrences. */
  function Distinct<T(==,!new)>(s: seq<T>): (r: seq<T>)
    ensures forall x :: x in r <==> x in s
    ensures forall i, j :: 0 <= i < j < |r| ==> r[i] != r[j]
    ensures |r| <= |s|
  {
    if s == [] then []
    else
      var d := Distinct(s[..|s| - 1]);
      assert forall x :: x in s <==> x in s[..|s| - 1] || x == s[|s| - 1] by {
        assert s == s[..|s| - 1] + [s[|s| - 1]];
      }
      if s[|s| - 1] in d then d else d + [s[|s| - 1]]
  }

  /** The index of the first occurrence of `x` in `s`. */
  function FirstIndex<T(==,!new)>(s: seq<T>, x: T): (i: nat)
    requires x in s
    ensures i < |s| && s[i] == x && x !in s[..i]
  {
    if s[0] == x then 0
    else
      var k := FirstIndex(s[1..], x);
      assert s[..k + 1] == [s[0]] + s[1..][..k];
      k + 1
  }

  /** The first occurrence is the one index holding `x` with no `x` before it. */
  lemma {:induction false} FirstIndexUnique<T(!new)>(s: seq<T>, x: T, i: nat)
    requires i < |s| && s[i] == x && x !in s[..i]
    ensures FirstIndex(s, x) == i
  {
    if i > 0 {
      assert s[..i][0] == s[0];
      assert s[1..][..i - 1] == s[..i][1..];
      FirstIndexUnique(s[1..], x, i - 1);
    }
  }

  lemma FirstIndexInPrefix<T(!new)>(s: seq<T>, t: seq<T>, x: T)
    requires x in s
    ensures FirstIndex(s + t, x) == FirstIndex(s, x)
  {
    var i := FirstIndex(s, x);
    assert (s + t)[..i] == s[..i];
    FirstIndexUnique(s + t, x, i);
  }

  /**
   * `drop_duplicates` keeps first occurrences in their order: the first
   * element survives, and the survivors appear in the order of their first
   * occurrences.
   */
  lemma {:induction false} DistinctKeepsFirstOccurrences<T(!new)>(s: seq<T>)
    ensures s != [] ==> Distinct(s)[0] == s[0]
    ensures forall i, j :: 0 <= i < j < |Distinct(s)| ==> FirstIndex(s, Distinct(s)[i]) < FirstIndex(s, Distinct(s)[j])
  {
    if s != [] {
      var p := s[..|s| - 1];
      var y := s[|s| - 1];
      var d := Distinct(p);
      DistinctKeepsFirstOccurrences(p);
      assert s == p + [y];
      if p == [] {
        assert Distinct(s) == [y];
      } else {
        assert Distinct(s)[0] == d[0];
      }
      forall x | x in p
        ensures FirstIndex(s, x) == FirstIndex(p, x)
      {
        FirstIndexInPrefix(p, [y], x);
      }
      if y !in d {
        assert y !in p;
        assert s[..|p|] == p;
        FirstIndexUnique(s, y, |p|);
      }
    }
  }

  function CarriesTrait(phenotype: string): GcatEntry -> bool {
    (e: GcatEntry) => e.traitName == phenotype
  }

  /** The rows of the preprocessed table whose processed trait name is the identifier, in table order. */
  function RowsOf(entries: seq<GcatEntry>, phenotype: string): (r: seq<GcatEntry>)
    ensures forall e :: e in r <==> e in entries && e.traitName == phenotype
  {
    FilterMembers(CarriesTrait(phenotype), entries);
    Filter(CarriesTrait(phenotype), entries)
  }

  /** A single row is kept exactly when it carries the identifier. */
  lemma RowsOfSingle(e: GcatEntry, phenotype: string)
    ensures RowsOf([e], phenotype) == if e.traitName == phenotype then [e] else []
  {
    FilterSnoc(CarriesTrait(phenotype), [], e);
    assert [] + [e] == [e];
  }

  /** The row filter works row by row: matching rows keep their table order and their repetitions. */
  lemma RowsOfAppend(a: seq<GcatEntry>, b: seq<GcatEntry>, phenotype: string)
    ensures RowsOf(a + b, phenotype) == RowsOf(a, phenotype) + RowsOf(b, phenotype)
  {
    FilterAppend(CarriesTrait(phenotype), a, b);
  }

  /** The first row kept is the earliest row of the table that carries the identifier. */
  lemma RowsOfFirst(entries: seq<GcatEntry>, phenotype: string)
    requires RowsOf(entries, phenotype) != []
    ensures exists i :: 0 <= i < |entries| && entries[i].traitName == phenotype &&
                        (forall j :: 0 <= j < i ==> entries[j].traitName != phenotype) &&
                        RowsOf(entries, phenotype)[0] == entries[i]
  {
    var i := FilterFirstIndex(CarriesTrait(phenotype), entries);
    assert forall j :: 0 <= j < i ==> !CarriesTrait(phenotype)(entries[j]);
  }

  /** The `(trait, accession, study)` columns of the rows. */
  function StudyColumns(rows: seq<GcatEntry>): (r: seq<(string, string, string)>)
    ensures |r| == |rows|
    ensures forall i :: 0 <= i < |rows| ==> r[i] == (rows[i].traitName, rows[i].accession, rows[i].study)
  {
    seq(|rows|, i requires 0 <= i < |rows| => (rows[i].traitName, rows[i].accession, rows[i].study))
  }

  /** The processed CURIE column of the rows. */
  function CurieColumn(rows: seq<GcatEntry>): (r: seq<string>)
    ensures |r| == |rows|
    ensures forall i :: 0 <= i < |rows| ==> r[i] == rows[i].curie
  {
    seq(|rows|, i requires 0 <= i < |rows| => rows[i].curie)
  }

  const GcstPrefix := "GCST"

  /** A GWAS id: `GCST:` and the text after the last `GCST` of the accession. */
  function GwasIdOf(accession: string): string {
    "GCST:" + LastPiece(accession, GcstPrefix)
  }

  /** An accession `GCST<n>` whose number holds no `GCST` gives the id `GCST:<n>`. */
  lemma GwasIdOfAccession(n: string)
    requires !Contains(n, GcstPrefix)
    ensures GwasIdOf(GcstPrefix + n) == "GCST:" + n
  {
    assert NoSelfOverlap(GcstPrefix) by {
      assert GcstPrefix[1..] != GcstPrefix[..3] by { assert GcstPrefix[1..][0] != GcstPrefix[..3][0]; }
      assert GcstPrefix[2..] != GcstPrefix[..2] by { assert GcstPrefix[2..][0] != GcstPrefix[..2][0]; }
      assert GcstPrefix[3..] != GcstPrefix[..1] by { assert GcstPrefix[3..][0] != GcstPrefix[..1][0]; }
    }
    LastPieceAfter("", GcstPrefix, n);
    assert "" + GcstPrefix + n == GcstPrefix + n;
  }

  /** What the GCAT reconciler returns when the trait is found. */
  datatype GcatResult = GcatResult(phenotype: PhenotypeRecord, studies: seq<GwasRecord>)

  /**
   * `create_gcat_phenotype`, as a value: `None` when no preprocessed row
   * carries the identifier; otherwise a phenotype whose cross-references
   * are the distinct CURIEs of those rows, the first being its id, and one
   * study per distinct `(trait, accession, study)` row.
   */
  function GcatPhenotype(entries: seq<GcatEntry>, phenotype: string, phenotypeName: string): Option<GcatResult> {
    var rows := RowsOf(entries, phenotype);
    if rows == [] then None
    else
      var xrefs := Distinct(CurieColumn(rows));
      assert rows[0].curie in CurieColumn(rows);
      var record := PhenotypeRecord(xrefs[0], phenotype, phenotypeName, NoDescription, xrefs);
      var keys := Distinct(StudyColumns(rows));
      Some(GcatResult(record, seq(|keys|, i requires 0 <= i < |keys| => GwasRecord(GwasIdOf(keys[i].1), keys[i].2, record))))
  }

  /**
   * What the GCAT reconciler promises when the trait is found: the phenotype's cross-references
   * are the distinct CURIEs of those rows in first-occurrence order, its id
   * is the first of them (the CURIE of the first matching row), its
   * description is the fixed default, and there is one study per distinct
   * study row, with a `GCST:` id and the study title as description.
   */
  lemma GcatPhenotypeMeaning(entries: seq<GcatEntry>, phenotype: string, phenotypeName: string)
    ensures var r := GcatPhenotype(entries, phenotype, phenotypeName);
            var rows := RowsOf(entries, phenotype);
            r.Some? ==>
              var p := r.value.phenotype;
              && p.hasXrefs == Distinct(CurieColumn(rows))
              && p.hasXrefs != [] && p.id == p.hasXrefs[0] && p.id == rows[0].curie
              && (forall c :: c in p.hasXrefs <==> exists e :: e in entries && e.traitName == phenotype && e.curie == c)
              && p.name == phenotype && p.displayName == phenotypeName && p.description == NoDescription
              && |r.value.studies| == |Distinct(StudyColumns(rows))|
              && forall i :: 0 <= i < |r.value.studies| ==>
                   var key := Distinct(StudyColumns(rows))[i];
                   r.value.studies[i] == GwasRecord(GwasIdOf(key.1), key.2, p)
  {
    var rows := RowsOf(entries, phenotype);
    if rows != [] {
      assert rows[0] in rows;
      DistinctKeepsFirstOccurrences(CurieColumn(rows));
      var curies := CurieColumn(rows);
      forall c
        ensures c in curies <==> exists e :: e in entries && e.traitName == phenotype && e.curie == c
      {
        if c in curies {
          var i :| 0 <= i < |curies| && curies[i] == c;
          assert rows[i] in rows;
        }
        if exists e :: e in entries && e.traitName == phenotype && e.curie == c {
          var e :| e in entries && e.traitName == phenotype && e.curie == c;
          assert e in rows;
          var i :| 0 <= i < |rows| && rows[i] == e;
          assert curies[i] == c;
        }
      }
    }
  }

  /** The GCAT reconciler yields `None` exactly when no preprocessed row carries the identifier. */
  lemma GcatPhenotypeFound(entries: seq<GcatEntry>, phenotype: string, phenotypeName: string)
    ensures GcatPhenotype(entries, phenotype, phenotypeName).None? <==> forall e :: e in entries ==> e.traitName != phenotype
  {
    var rows := RowsOf(entries, phenotype);
    if rows != [] {
      assert rows[0] in rows;
    }
  }

  /**
   * `create_gcat_phenotype`: filter the preprocessed table on the trait
   * name, build the phenotype from the distinct CURIEs, then append one
   * study per distinct study row.
   */
  method CreateGcatPhenotype(entries: seq<GcatEntry>, phenotype: string, phenotypeName: string) returns (r: Option<GcatResult>)
    ensures r == GcatPhenotype(entries, phenotype, phenotypeName)
  {
    var rows := RowsOf(entries, phenotype);
    if rows == [] {
      return None;
    }
    assert rows[0].curie in CurieColumn(rows);
    var studyInfo := Distinct(StudyColumns(rows));
    var xrefs := Distinct(CurieColumn(rows));
    var phenotypeObj := PhenotypeRecord(xrefs[0], phenotype, phenotypeName, NoDescription, xrefs);
    var studies := CreateStudies(studyInfo, phenotypeObj);
    return Some(GcatResult(phenotypeObj, studies));
  }

  /** The study loop of `create_gcat_phenotype`: one study per distinct study row, in order. */
  method CreateStudies(studyInfo: seq<(string, string, string)>, phenotypeObj: PhenotypeRecord) returns (studies: seq<GwasRecord>)
    ensures studies == seq(|studyInfo|, i requires 0 <= i < |studyInfo| => GwasRecord(GwasIdOf(studyInfo[i].1), studyInfo[i].2, phenotypeObj))
  {
    studies := [];
    var i := 0;
    while i < |studyInfo|
      invariant 0 <= i <= |studyInfo|
      invariant |studies| == i
      invariant forall j :: 0 <= j < i ==> studies[j] == GwasRecord(GwasIdOf(studyInfo[j].1), studyInfo[j].2, phenotypeObj)
    {
      var (_, accession, study) := studyInfo[i];
      var gwasId := LastPiece(accession, GcstPrefix);
      studies := studies + [GwasRecord("GCST:" + gwasId, study, phenotypeObj)];
      i := i + 1;
    }
  }

  /** Every study of a GCAT result has a `GCST:` id and belongs to the result's phenotype; the studies are distinct. */
  lemma GcatStudiesAreDistinct(entries: seq<GcatEntry>, phenotype: string, phenotypeName: string)
    requires GcatPhenotype(entries, phenotype, phenotypeName).Some?
    ensures var res := GcatPhenotype(entries, phenotype, phenotypeName).value;
            && |res.studies| <= |RowsOf(entries, phenotype)|
            && (forall i :: 0 <= i < |res.studies| ==>
                  res.studies[i].id[..5] == "GCST:" && res.studies[i].phenotype == res.phenotype)
            && (forall i, j :: 0 <= i < j < |res.studies| ==>
                  Distinct(StudyColumns(RowsOf(entries, phenotype)))[i] != Distinct(StudyColumns(RowsOf(entries, phenotype)))[j])
  {
  }

  /** One row of the portal traits mapping. */
  datatype PortalRow = PortalRow(name: string, id: string, efoId: string, description: string)

  /** The first row of the mapping with the given name. */
  function FirstMatch(table: seq<PortalRow>, phenotype: string): (r: Option<PortalRow>)
    ensures r.None? <==> forall row :: row in table ==> row.name != phenotype
    ensures r.Some? ==>
              exists i :: 0 <= i < |table| && table[i] == r.value && r.value.name == phenotype &&
                          forall j :: 0 <= j < i ==> table[j].name != phenotype
  {
    if table == [] then None
    else if table[0].name == phenotype then
      Some(table[0])
    else
      var r := FirstMatch(table[1..], phenotype);
      assert forall row :: row in table ==> row == table[0] || row in table[1..];
      if r.Some? then
        var i :| 0 <= i < |table[1..]| && table[1..][i] == r.value && r.value.name == phenotype &&
                 forall j :: 0 <= j < i ==> table[1..][j].name != phenotype;
        assert table[i + 1] == r.value;
        assert forall j :: 0 <= j < i + 1 ==> table[j].name != phenotype by {
          forall j | 0 <= j < i + 1 ensures table[j].name != phenotype {
            if j > 0 {
              assert table[j] == table[1..][j - 1];
            }
          }
        }
        r
      else
        r
  }

  const PortalTraitPrefix := "PORTAL.TRAIT:"
  const NotInMapping := "No description available. Not found in AMP traits mapping."

  /**
   * `create_portal_phenotype`: never fails. A name missing from the
   * mapping gives a phenotype `PORTAL.TRAIT:<name>` with the fixed
   * description and no cross-references; otherwise the first matching row
   * gives the id `PORTAL.TRAIT:<row id>`, its description, and its EFO
   * column split on `,` (order kept, pieces not trimmed).
   */
  function CreatePortalPhenotype(table: seq<PortalRow>, phenotype: string, phenotypeName: string): (r: PhenotypeRecord)
    ensures r.name == phenotype && r.displayName == phenotypeName
    ensures PortalTraitPrefix <= r.id
    ensures (forall row :: row in table ==> row.name != phenotype) ==>
              r == PhenotypeRecord(PortalTraitPrefix + phenotype, phenotype, phenotypeName, NotInMapping, [])
    ensures (exists row :: row in table && row.name == phenotype) ==>
              exists i :: 0 <= i < |table| && table[i].name == phenotype &&
                          (forall j :: 0 <= j < i ==> table[j].name != phenotype) &&
                          r.id == PortalTraitPrefix + table[i].id && r.description == table[i].description &&
                          Join(r.hasXrefs, ",") == table[i].efoId && r.hasXrefs == Split(table[i].efoId, ",")
  {
    match FirstMatch(table, phenotype)
    case None => PhenotypeRecord(PortalTraitPrefix + phenotype, phenotype, phenotypeName, NotInMapping, [])
    case Some(row) =>
      JoinSplit(row.efoId, ",");
      PhenotypeRecord(PortalTraitPrefix + row.id, phenotype, phenotypeName, row.description, Split(row.efoId, ","))
  }

  // ---------------------------------------------------------------------
  // From records to the generated classes
  // ---------------------------------------------------------------------

  /**
   * The `Phenotype(...)` call of a reconciler: the record's strings are
   * handed to the constructor and `__post_init__` only tags the id with
   * its class.
   */
  method NewPhenotype(rec: PhenotypeRecord) returns (p: Phenotype)
    ensures fresh(p)
    ensures p.id == PyId(PhenotypeId, rec.id)
    ensures p.name == PyStr(rec.name) && p.displayName == PyStr(rec.displayName)
    ensures p.description == PyStr(rec.description)
    ensures p.hasXrefs == StrList(rec.hasXrefs)
  {
    p := new Phenotype(PyStr(rec.id), PyStr(rec.name), PyStr(rec.description), PyStr(rec.displayName), StrList(rec.hasXrefs));
    StringFieldsKeepTheirText(rec.id, rec.name, rec.hasXrefs, PhenotypeId);
    var outcome := p.PostInit();
  }

  /**
   * The `Gwas(...)` call of the GCAT reconciler. The phenotype object is
   * passed as the `phenotype` field, which `__post_init__` turns into a
   * `PhenotypeId` holding the object's `str()` text, given here as
   * `phenotypeText`.
   */
  method NewGwas(rec: GwasRecord, phenotypeText: string) returns (g: Gwas)
    ensures fresh(g)
    ensures g.id == PyId(GwasId, rec.id)
    ensures g.description == PyStr(rec.description) && g.name == PyNone
    ensures g.phenotype == PyId(PhenotypeId, phenotypeText)
    ensures g.hasXrefs == PyList([])
  {
    g := new Gwas(PyStr(rec.id), PyStr(rec.description), PyNone, PyObject(phenotypeText), PyList([]));
    var outcome := g.PostInit();
  }
}
