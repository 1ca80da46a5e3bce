# Phenotype ingestion and PIGEAN ranking, modelled in Dafny

This project models two parts of the DIG portal AI repository.

The first is the phenotype ingestion path of `kg-ingress`:

- The GCAT catalogue table is preprocessed. The trait-name column becomes a `gcat_trait_` identifier. The trait-URI column becomes a CURIE. Rows missing either are dropped.
- An Orphanet trait is looked up in the ORDO ontology.
- Three reconcilers turn a raw phenotype identifier into a phenotype record: Orphanet, GCAT (which also yields GWAS studies) and the portal traits mapping.
- `transform_phenotype_data` routes every raw record to one reconciler and concatenates what they build, in input order.
- The generated LinkML classes (`Gene`, `Phenotype`, `Gwas`, `GeneSet` and the association classes) normalise their fields in `__post_init__`.

The second is the ranking and shaping helpers of the PIGEAN tools in `portal-tools`: metric-name mapping, top-N genes, top-N gene sets, factors and `;`-separated gene lists.

Modules:

- `Wrappers` (`wrappers.dfy`): `Option`, `Result` and `Outcome`.
- `Seqs` (`seqs.dfy`): the row-wise filter (a pandas boolean mask, a SPARQL `FILTER`) and the row-wise flat map, with their append and first-element lemmas.
- `Text` (`text.dfy`): Python's `in`, `split`, `join`, `split(...)[-1]`, `strip`, `replace` and the `re.sub` used on trait names.
- `StableSort` (`stable_sort.dfy`): `sorted(..., key=..., reverse=True)` and the slice `[:n]`.
- `PortalModel` (`portal_model.dfy`): one class per generated record class. Fields are Python values; `PostInit` reassigns them step by step.
- `PhenotypeUtils` (`phenotype_utils.dfy`): preprocessing (`GcatTable.Preprocess`), the ontology lookup, and the reconcilers.
- `Assets` (`assets.dfy`): the classifier and the transformation loop.
- `Pigean` (`pigean.dfy`): the ranking helpers.

How the source's data is represented:

- DataFrames, SPARQL solutions and fetched JSON rows are sequences of records. A missing cell (`NaN`) is `None`.
- Scores are integer keys, since only their order matters.
- The three reconcilers take their table or graph as their first argument. The calls in `kg-ingress/kg_ingress/assets.py` (lines 43, 47 and 52) pass only the identifier and the display name. The model passes the tables explicitly, bundled as `Assets.Tables`.
- A GCAT reconciler result of `None` contributes nothing to the output, as the `if phenotype` test at line 48 intends. The code as written unpacks that `None` first; see "## Findings".

## Model

| member | source | states |
|---|---|---|
| Text.Split | portal-tools/portal_tools/tools/pigean.py:171-174 | `str.split(sep)` always yields at least one piece, so an empty string gives `[""]` |
| Text.JoinSplit | kg-ingress/kg_ingress/utils/phenotype_utils.py:132 | joining the pieces of `s.split(sep)` with `sep` gives back `s`, for any non-empty separator |
| Text.SplitPiecesAreFree | portal-tools/portal_tools/tools/pigean.py:171-174 | no piece of a split contains the separator, and the first piece is a prefix of the string |
| Text.SplitWithoutSeparator | kg-ingress/kg_ingress/utils/phenotype_utils.py:132 | a string without the separator character splits into itself alone |
| Text.SplitAfterPiece | kg-ingress/kg_ingress/utils/phenotype_utils.py:132 | splitting `x + c + y`, where `x` lacks `c`, gives `x` followed by the pieces of `y` |
| Text.SplitJoin | portal-tools/portal_tools/tools/pigean.py:171-174 | splitting the `c`-join of pieces that lack `c` gives back exactly those pieces |
| Text.LastPieceAfterLastSeparator | kg-ingress/kg_ingress/utils/phenotype_utils.py:21 | `s.split(sep)[-1]` holds no separator; it is `s` when `s` has none, and otherwise the text right after the last separator |
| Text.LastPieceAfter | kg-ingress/kg_ingress/utils/phenotype_utils.py:113 | for a separator that cannot overlap itself, the last piece of `p + sep + x` is `x` whenever `x` does not contain `sep` |
| Text.ReplaceChar | kg-ingress/kg_ingress/utils/phenotype_utils.py:13 | `str.replace` of one character: the length is kept, and exactly the positions holding the old character change, to the new one |
| Text.TrimStart | kg-ingress/kg_ingress/utils/phenotype_utils.py:21 | the left half of `strip()`: a suffix of the input, everything removed before it is whitespace, and it is empty or starts with a non-whitespace character |
| Text.TrimEnd | kg-ingress/kg_ingress/utils/phenotype_utils.py:21 | the right half of `strip()`: a prefix of the input, everything removed after it is whitespace, and it is empty or ends with a non-whitespace character |
| Text.Strip | kg-ingress/kg_ingress/utils/phenotype_utils.py:21 | `strip()` gives a contiguous part of the input with only whitespace before and after it, and that is empty or starts and ends with a non-whitespace character |
| Text.KeepWordChars | kg-ingress/kg_ingress/utils/phenotype_utils.py:14 | `re.sub(r"[^A-Za-z0-9_]", "", s)` leaves only ASCII letters, digits and `_` |
| Text.KeepWordCharsSingle | kg-ingress/kg_ingress/utils/phenotype_utils.py:14 | one character survives the substitution exactly when it is an ASCII letter, digit or `_` |
| Text.KeepWordCharsAppend | kg-ingress/kg_ingress/utils/phenotype_utils.py:14 | the substitution works character by character: the result for a concatenation is the concatenation of the results, so every word character is kept, in order |
| Text.SpacesBecomeUnderscores | kg-ingress/kg_ingress/utils/phenotype_utils.py:13-14 | after the two rewrites, every word character occurs as often as in the input, `_` also once per input space, and no other character remains |
| StableSort.SortDescending | portal-tools/portal_tools/tools/pigean.py:107 | `sorted(reverse=True)` returns a permutation in non-increasing key order; elements with equal keys keep their input order |
| StableSort.TakePrefix | portal-tools/portal_tools/tools/pigean.py:110 | the slice `[:n]` is a prefix of length `min(n, len)`, and for negative `n` it drops `-n` elements from the end |
| StableSort.WithKeyAppend | portal-tools/portal_tools/tools/pigean.py:147-149 | the elements with a given key of a concatenation are those of the first part, then those of the second |
| StableSort.PrefixKeepsEarliest | portal-tools/portal_tools/tools/pigean.py:147-149 | a prefix of a stably sorted sequence holds, for each key, the earliest input elements with that key, in input order |
| StableSort.TopN | portal-tools/portal_tools/tools/pigean.py:147-149 | sort then slice: `min(n, len)` elements in non-increasing order, drawn from the input, with nothing left out ranking above anything kept; among equal keys the earliest input elements are the ones kept, in input order |
| Pigean.MetricField | portal-tools/portal_tools/tools/pigean.py:98-105 | `combined`, `indirect` and `direct` select `combined`, `prior` and `log_bf`; every other metric is `ValueError("Invalid metric: ...")` |
| Pigean.MetricNamesRoundTrip | portal-tools/portal_tools/tools/pigean.py:98-105 | every field is selected by exactly its own metric name, and distinct fields have distinct row keys and metric names |
| Pigean.GetTopGenes | portal-tools/portal_tools/tools/pigean.py:98-118 | an unknown metric fails; otherwise `min(top_n, len)` entries, non-increasing in the value, each built from the ranked row with the user-facing metric name; the ranked rows are the stable top `top_n`, so ties keep the earliest rows in input order |
| Pigean.ReportTopGenes | portal-tools/portal_tools/tools/pigean.py:109-116 | one entry per ranked row, in rank order, with `gene_id = gene_name = gene`, the field value and the metric name; values stay non-increasing |
| Pigean.ShapeGeneGenesets | portal-tools/portal_tools/tools/pigean.py:131-139 | fails with `KeyError` exactly when some row lacks the metric column; otherwise one entry per row, in row order, carrying that row's value |
| Pigean.GetGeneGenesets | portal-tools/portal_tools/tools/pigean.py:147-149 | the first `top_n` entries by descending metric value; no entry left out has a larger value than one kept, and among equal values the earliest entries are kept, in input order |
| Pigean.ShapeFactors | portal-tools/portal_tools/tools/pigean.py:161-176 | one factor per row, in row order, with both gene lists split on `;` |
| Pigean.FactorListsRoundTrip | portal-tools/portal_tools/tools/pigean.py:171-174 | both factor lists (genes and top gene sets) joined with `;` give back the row's strings, no piece of either holds `;`, and an empty string gives `[""]` |
| Pigean.GetFactors | portal-tools/portal_tools/tools/pigean.py:184-186 | all factors (a permutation), non-increasing in gene-set score, with equal scores in input order |
| PortalModel.RequiredId | kg-ingress/kg_ingress/models/portal_model.py:151-154 | an empty id (`None`, `[]`, `{}`) raises MissingRequiredField("id"); any other value ends up an instance of the id class holding its `str()` text, and an id already of that class is kept as is |
| PortalModel.OptionalStr | kg-ingress/kg_ingress/models/portal_model.py:190-197 | `None` stays `None`; anything else becomes a string holding its `str()` text, and a string is kept as is |
| PortalModel.OptionalRef | kg-ingress/kg_ingress/models/portal_model.py:228-232 | `None` stays `None`; anything else becomes an instance of the reference's id class holding its `str()` text, and such an instance is kept as is |
| PortalModel.AsStr | kg-ingress/kg_ingress/models/portal_model.py:161 | one `has_xrefs` element becomes a string with its `str()` text, and a string is kept |
| PortalModel.XrefList | kg-ingress/kg_ingress/models/portal_model.py:159-161 | `has_xrefs` always ends up a list of strings: `None` gives `[]`, a scalar a singleton, a list keeps its length and order; a list of strings is kept |
| PortalModel.NormalizeXrefs | kg-ingress/kg_ingress/models/portal_model.py:199-201 | the two `has_xrefs` statements, wrapping then converting element by element, compute `XrefList` |
| PortalModel.ScoreOrEmpty | kg-ingress/kg_ingress/models/portal_model.py:266-267 | a non-`None` score that is not a `Score` (a dict, or an `IndirectSupportScore`) becomes an empty `Score()`; a `Score` is kept |
| PortalModel.NormalisationIsIdempotent | kg-ingress/kg_ingress/models/portal_model.py:153-161 | applying any field step twice gives what applying it once gives |
| PortalModel.AssociationSteps | kg-ingress/kg_ingress/models/portal_model.py:225-232 | `Association`'s steps after the empty-id check: the id becomes an `AssociationId`, and `gene` and `phenotype` become references |
| PortalModel.StringFieldsKeepTheirText | kg-ingress/kg_ingress/models/portal_model.py:184-201 | fields passed as plain strings and string lists keep their text through normalisation; only the id gets tagged with its class |
| PortalModel.Gene.constructor | kg-ingress/kg_ingress/models/portal_model.py:146-148 | the dataclass constructor stores the arguments as given |
| PortalModel.Gene.PostInit | kg-ingress/kg_ingress/models/portal_model.py:150-163 | an empty id fails with nothing changed; otherwise each field is its step applied to its old value and the record is normalised; a normalised record is left unchanged |
| PortalModel.Phenotype.constructor | kg-ingress/kg_ingress/models/portal_model.py:178-182 | the dataclass constructor stores the arguments as given |
| PortalModel.Phenotype.PostInit | kg-ingress/kg_ingress/models/portal_model.py:184-203 | as for `Gene`, for the id, the three optional strings and `has_xrefs` |
| PortalModel.Association.constructor | kg-ingress/kg_ingress/models/portal_model.py:218-220 | the dataclass constructor stores the arguments as given |
| PortalModel.Association.PostInit | kg-ingress/kg_ingress/models/portal_model.py:222-234 | as for `Gene`, for the id and the `gene` and `phenotype` references |
| PortalModel.DirectSupportAssociation.constructor | kg-ingress/kg_ingress/models/portal_model.py:249-252 | the dataclass constructor stores the arguments as given |
| PortalModel.DirectSupportAssociation.PostInit | kg-ingress/kg_ingress/models/portal_model.py:254-269 | its own steps (the id of its class, the references, the score), then `Association`'s through `super()`, which change nothing more because its id class derives from `AssociationId` |
| PortalModel.IndirectSupportAssociation.constructor | kg-ingress/kg_ingress/models/portal_model.py:284-287 | the dataclass constructor stores the arguments as given |
| PortalModel.IndirectSupportAssociation.PostInit | kg-ingress/kg_ingress/models/portal_model.py:289-304 | as for `Gene`, for the id, both references and the score |
| PortalModel.CombinedSupportAssociation.constructor | kg-ingress/kg_ingress/models/portal_model.py:319-322 | the dataclass constructor stores the arguments as given |
| PortalModel.CombinedSupportAssociation.PostInit | kg-ingress/kg_ingress/models/portal_model.py:324-339 | as for `Gene`, for the id, both references and the score |
| PortalModel.Gwas.constructor | kg-ingress/kg_ingress/models/portal_model.py:354-358 | the dataclass constructor stores the arguments as given |
| PortalModel.Gwas.PostInit | kg-ingress/kg_ingress/models/portal_model.py:360-379 | as for `Gene`; a non-`None` `phenotype` always ends up a `PhenotypeId` |
| PortalModel.GeneSet.constructor | kg-ingress/kg_ingress/models/portal_model.py:394-397 | the dataclass constructor stores the arguments as given |
| PortalModel.GeneSet.PostInit | kg-ingress/kg_ingress/models/portal_model.py:399-415 | as for `Gene`, for the id, two optional strings and `has_xrefs` |
| PortalModel.GeneSetJointEffectAssociation.constructor | kg-ingress/kg_ingress/models/portal_model.py:430-433 | the dataclass constructor stores the arguments, with the `gene` field inherited from `Association` |
| PortalModel.GeneSetJointEffectAssociation.PostInit | kg-ingress/kg_ingress/models/portal_model.py:435-450 | its own steps, then `Association`'s through `super()`, which also make the inherited `gene` a reference |
| PortalModel.GeneSetMarginalEffectAssociation.constructor | kg-ingress/kg_ingress/models/portal_model.py:465-468 | the dataclass constructor stores the arguments, with the `gene` field inherited from `Association` |
| PortalModel.GeneSetMarginalEffectAssociation.PostInit | kg-ingress/kg_ingress/models/portal_model.py:470-485 | its own steps, then `Association`'s through `super()`, which also make the inherited `gene` a reference |
| PhenotypeUtils.ProcessTraitName | kg-ingress/kg_ingress/utils/phenotype_utils.py:10-15 | a missing or empty cell gives `None`; otherwise `gcat_trait_` followed only by ASCII letters, digits and `_` |
| PhenotypeUtils.TraitNameCharacters | kg-ingress/kg_ingress/utils/phenotype_utils.py:13-15 | after the prefix, each word character of the cell appears as often as in the cell, `_` once more per space, and nothing else |
| PhenotypeUtils.TraitNameOfSymbolsIsPrefix | kg-ingress/kg_ingress/utils/phenotype_utils.py:13-15 | a non-empty cell of symbols only still gives the bare `gcat_trait_`, so its row is kept |
| PhenotypeUtils.ProcessCurie | kg-ingress/kg_ingress/utils/phenotype_utils.py:18-22 | a missing or empty cell gives `None`; otherwise a value with no `/` and no `_` |
| PhenotypeUtils.LastSegmentReplaced | kg-ingress/kg_ingress/utils/phenotype_utils.py:21-22 | the last `/`-segment of a string with `_` turned into `:` is read off the end of that string: after its last `/`, or all of it when there is none |
| PhenotypeUtils.CurieIsLastSegment | kg-ingress/kg_ingress/utils/phenotype_utils.py:21-22 | the CURIE is the text after the last `/` of the stripped value (all of it when there is none), with `_` turned into `:` |
| PhenotypeUtils.PreprocessedAppend | kg-ingress/kg_ingress/utils/phenotype_utils.py:29 | `dropna` works row by row: the kept rows of a concatenation are the kept rows of each part, in order |
| PhenotypeUtils.PreprocessedRow | kg-ingress/kg_ingress/utils/phenotype_utils.py:25-29 | a row is kept exactly when both of its cells are present and non-empty, and is kept with its two processed values |
| PhenotypeUtils.GcatTable.constructor | kg-ingress/kg_ingress/utils/phenotype_utils.py:6 | the table holds the given rows and no processed columns yet |
| PhenotypeUtils.PreprocessedStep | kg-ingress/kg_ingress/utils/phenotype_utils.py:29 | one more table row adds its entry exactly when both processed values are present |
| PhenotypeUtils.DropIncomplete | kg-ingress/kg_ingress/utils/phenotype_utils.py:29 | the `dropna` loop keeps, in table order, exactly the rows whose processed columns are both present: the rows `Preprocessed` describes |
| PhenotypeUtils.GcatTable.Preprocess | kg-ingress/kg_ingress/utils/phenotype_utils.py:25-30 | the two processed columns are added to the table in place, row for row, and the returned rows (filtered by `DropIncomplete`) are exactly those with both present, in table order |
| PhenotypeUtils.Matching | kg-ingress/kg_ingress/utils/phenotype_utils.py:53 | the `FILTER` keeps exactly the solutions whose URI starts with `http://www.orpha.net/ORDO/Orphanet_<id>`, and no more solutions than there are |
| PhenotypeUtils.MatchingSingle | kg-ingress/kg_ingress/utils/phenotype_utils.py:53 | one solution is kept exactly when it passes the `FILTER` |
| PhenotypeUtils.MatchingAppend | kg-ingress/kg_ingress/utils/phenotype_utils.py:53 | the `FILTER` works solution by solution: passing solutions keep their order and repetitions |
| PhenotypeUtils.MatchingFirst | kg-ingress/kg_ingress/utils/phenotype_utils.py:67-70 | the first solution the loop sees is the earliest solution that passes the `FILTER` |
| PhenotypeUtils.LiteralXrefsAppend | kg-ingress/kg_ingress/utils/phenotype_utils.py:74-75 | cross-references are collected solution by solution, in solution order, duplicates kept |
| PhenotypeUtils.LookupTrait | kg-ingress/kg_ingress/utils/phenotype_utils.py:53-77 | `None` exactly when no solution passes the filter; otherwise the requested id, the URI, label and description ("No description available" when the literal is missing or empty) of the earliest passing solution, and as references the literal cross-references of all passing solutions, in order, duplicates kept |
| PhenotypeUtils.LookupTraitWithDbRefs | kg-ingress/kg_ingress/utils/phenotype_utils.py:59-77 | the fold over the solutions computes `LookupTrait`: the first solution fixes URI, label and description, and every one adds its literal cross-reference |
| PhenotypeUtils.PrefixFilterAdmitsLongerIds | kg-ingress/kg_ingress/utils/phenotype_utils.py:53 | the filter is a prefix test, so a trait whose id merely begins with the requested id also answers the lookup |
| PhenotypeUtils.OrphanetId | kg-ingress/kg_ingress/utils/phenotype_utils.py:80 | the Orphanet id holds no `_`; it is the whole identifier when that has no `_`, and otherwise what follows its last `_` |
| PhenotypeUtils.OrphanetIdExample | kg-ingress/kg_ingress_tests/test_phenotype_utils.py:44 | the example identifier `..._Orphanet_477754` is looked up as `477754` |
| PhenotypeUtils.CreateOrphanetPhenotype | kg-ingress/kg_ingress/utils/phenotype_utils.py:79-91 | `None` exactly when the lookup finds nothing; otherwise id = resolved URI, name = raw identifier, the given display name, and the lookup's description and cross-references |
| PhenotypeUtils.Distinct | kg-ingress/kg_ingress/utils/phenotype_utils.py:99-100 | `drop_duplicates`: the same elements, none repeated, never more than the input |
| PhenotypeUtils.DistinctKeepsFirstOccurrences | kg-ingress/kg_ingress/utils/phenotype_utils.py:99-100 | the first element survives, and the survivors are in the order of their first occurrences |
| PhenotypeUtils.RowsOf | kg-ingress/kg_ingress/utils/phenotype_utils.py:94 | the boolean-mask filter keeps exactly the rows whose processed trait name is the identifier |
| PhenotypeUtils.RowsOfSingle | kg-ingress/kg_ingress/utils/phenotype_utils.py:94 | one row is kept exactly when its processed trait name is the identifier |
| PhenotypeUtils.RowsOfAppend | kg-ingress/kg_ingress/utils/phenotype_utils.py:94 | the mask works row by row: matching rows keep their table order and repetitions |
| PhenotypeUtils.RowsOfFirst | kg-ingress/kg_ingress/utils/phenotype_utils.py:94 | the first row kept is the earliest row of the table that carries the identifier |
| PhenotypeUtils.GwasIdOfAccession | kg-ingress/kg_ingress/utils/phenotype_utils.py:113-115 | an accession `GCST<n>` whose `n` holds no `GCST` gives the id `GCST:<n>` |
| PhenotypeUtils.GcatPhenotypeFound | kg-ingress/kg_ingress/utils/phenotype_utils.py:94-98 | the GCAT reconciler returns `None` exactly when no preprocessed row carries the identifier |
| PhenotypeUtils.GcatPhenotypeMeaning | kg-ingress/kg_ingress/utils/phenotype_utils.py:99-118 | when found: the cross-references are the distinct CURIEs of those rows in first-occurrence order, with the first matching row's CURIE as the id; the description is "No description available"; and there is one study per distinct (trait, accession, study) row, with a `GCST:` id and the study title |
| PhenotypeUtils.CreateGcatPhenotype | kg-ingress/kg_ingress/utils/phenotype_utils.py:93-119 | the filter, the deduplication, the phenotype and the study loop compute the result `GcatPhenotypeMeaning` describes |
| PhenotypeUtils.CreateStudies | kg-ingress/kg_ingress/utils/phenotype_utils.py:111-118 | one `Gwas` per distinct study row, in order, each linked to the reconciler's phenotype |
| PhenotypeUtils.GcatStudiesAreDistinct | kg-ingress/kg_ingress/utils/phenotype_utils.py:99-118 | no more studies than matching rows; each study id starts with `GCST:` and links to the result's phenotype |
| PhenotypeUtils.FirstMatch | kg-ingress/kg_ingress/utils/phenotype_utils.py:122-131 | `None` exactly when no row has the name; otherwise the earliest row that has it |
| PhenotypeUtils.CreatePortalPhenotype | kg-ingress/kg_ingress/utils/phenotype_utils.py:121-139 | never fails. A miss gives `PORTAL.TRAIT:<identifier>`, the fixed description and no cross-references. A hit uses the first matching row: id `PORTAL.TRAIT:<row id>`, its description, and its `EFO_id` split on `,`, whose `,`-join gives the column back |
| PhenotypeUtils.NewPhenotype | kg-ingress/kg_ingress/utils/phenotype_utils.py:102-108 | a phenotype record handed to `Phenotype(...)` keeps every string, with only the id tagged as a `PhenotypeId` |
| PhenotypeUtils.NewGwas | kg-ingress/kg_ingress/utils/phenotype_utils.py:114-118 | a study handed to `Gwas(...)` gets a `GwasId`, its title, no xrefs, and a `PhenotypeId` holding the phenotype object's text |
| Assets.Classify | kg-ingress/kg_ingress/assets.py:42-54 | every identifier goes to exactly one reconciler: Orphanet when it contains `Orphanet`, else GCAT when it contains `gcat_trait`, else portal |
| Assets.ClassifyOrphanetExample | kg-ingress/kg_ingress_tests/test_phenotype_utils.py:44 | the Orphanet example identifier goes to the Orphanet reconciler |
| Assets.ClassifyGcatExample | kg-ingress/kg_ingress_tests/test_phenotype_utils.py:37 | the GCAT example identifier goes to the GCAT reconciler |
| Assets.ClassifyPortalExample | kg-ingress/kg_ingress_tests/test_phenotype_utils.py:23 | `eGFRcrcys` goes to the portal reconciler |
| Assets.ClassifyMixedExample | kg-ingress/kg_ingress/assets.py:42-47 | an identifier holding both `gcat_trait` and `Orphanet` goes to the Orphanet reconciler |
| Assets.GcatEntities | kg-ingress/kg_ingress/assets.py:48-50 | a found GCAT result adds its phenotype immediately followed by its studies, in order; `None` adds nothing |
| Assets.TransformPhenotypeData | kg-ingress/kg_ingress/assets.py:37-55 | the loop computes `Transform`, the concatenation of every record's contribution in input order |
| Assets.Reconcile | kg-ingress/kg_ingress/assets.py:42-54 | one loop body: the routed reconciler's output is appended, or nothing when it yields `None` |
| Assets.TransformAppend | kg-ingress/kg_ingress/assets.py:41 | the output for a concatenation of inputs is the concatenation of their outputs: order is kept and records do not affect each other |
| Assets.TransformAround | kg-ingress/kg_ingress/assets.py:41 | the output is the output before a record, then that record's contribution, then the output after it |
| Assets.OrphanetContribution | kg-ingress/kg_ingress/assets.py:42-45 | an Orphanet record adds its phenotype, or nothing when the lookup finds nothing |
| Assets.GcatContribution | kg-ingress/kg_ingress/assets.py:46-50 | a GCAT record adds its reconciler's result, and nothing when its trait is not in the table |
| Assets.PortalContribution | kg-ingress/kg_ingress/assets.py:51-54 | a portal record adds exactly one phenotype |
| Assets.TransformLength | kg-ingress/kg_ingress/assets.py:40-55 | the output length is the resolved Orphanet records, plus the portal records, plus one and the study count for each GCAT record whose trait is found |
| Assets.UnmatchedGcatRecordAborts | kg-ingress/kg_ingress/assets.py:47 | as written, one GCAT record whose trait is not in the table makes the whole transformation raise |
| Assets.UnmatchedGcatRecordIsDropped | kg-ingress/kg_ingress/assets.py:47-50 | with the intended test, such a record is dropped and every other record's output is kept, in order |
| Assets.AsWrittenAgreesWhenItReturns | kg-ingress/kg_ingress/assets.py:41-55 | whenever the code as written returns, it returns what the intended version does |
| Assets.UnmatchedGcatExample | kg-ingress/kg_ingress/assets.py:47 | one record `gcat_trait_x` and an empty GCAT table: as written it raises, and the intended version returns `[]` |

Every output element is a phenotype or a study (kg-ingress/kg_ingress_tests/test_assets.py:52-59). The model guarantees this by type: `Assets.Entity` has just those two cases.

## Left out

- HTTP fetching and continuation-token pagination (`fetch_phenotype_data`, and the `requests.get` parts of the PIGEAN fetchers). The model takes the fetched record lists as input.
- Running the SPARQL query against the rdflib graph. The ontology is the sequence of solutions of the graph pattern before the `FILTER`, in the order the store yields them. rdflib's result order is not modelled.
- Truth values of rdflib terms: a literal is false exactly when its lexical form is empty. An IRI is always true.
- The missing table arguments at the call sites in `kg-ingress/kg_ingress/assets.py` (lines 43, 47 and 52). As written, each call would raise `TypeError`. The model threads the tables explicitly instead.
- `search_phenotypes`: it depends on sentence embeddings and floating-point cosine similarity.
- Floating-point scores, including NaN and infinity. Scores are integers, since only their order is used.
- Neo4j access (`cypher_utils.py`), the Flask and MCP wrappers (`app.py`, `server.py`), the Dagster pipeline (`pipeline.py`, `__init__.py`) and all of `portal-ai`.
- The LinkML machinery: CURIE namespaces, `ClassVar` URIs, the `Score` subclasses' own (empty) field lists and `slots`. `YAMLRoot.__post_init__` and its keyword handling are also out. `_is_empty` is modelled as linkml's: `None`, an empty list or an empty dict, so an empty string is not empty.
- `str()` of containers and objects. `PortalModel.Render` shows a list's elements in a simplified form, and any other object's text is an input (`PyObject`).
- PhenotypeUtils.NewGwas: the `str()` of the `Phenotype` object stored in a study is given as a parameter, since `YAMLRoot`'s rendering is not part of this model. The `GwasRecord` the reconciler returns keeps the phenotype record itself.
- NaN cells of the portal traits mapping: the mapping's cells are strings.
- The raw GCAT row is reduced to the four columns the reconcilers read: trait name, trait URI, accession and study title.
- PhenotypeUtils.GcatStudiesAreDistinct: states that the study rows are distinct, not the `Gwas` records. Two distinct rows can yield equal records when their accessions end the same way after the last `GCST`.

## Findings

| source | as written | input that shows it | evidently intended | confidence | as-written member | corrected member |
|---|---|---|---|---|---|---|
| kg-ingress/kg_ingress/assets.py:47-48 | `phenotype, studies = create_gcat_phenotype(...)` unpacks the result before `if phenotype` tests it, and the reconciler returns `None` for a trait not in the GCAT table, so the unpacking raises `TypeError` and the whole transformation aborts | one record with identifier `gcat_trait_x` and an empty GCAT table | a GCAT record whose trait is not found contributes nothing, as the `if phenotype` test and the other two branches do | high (not executed) | Assets.TransformAsWritten, Assets.UnmatchedGcatRecordAborts, Assets.UnmatchedGcatExample | Assets.Transform, Assets.UnmatchedGcatRecordIsDropped |
