/**
 * The entity records of the portal graph schema (genes, phenotypes, GWAS
 * studies, gene sets and the scored associations) and the normalisation
 * each class's `__post_init__` applies to its own fields after the
 * dataclass constructor has stored the arguments as given.
 *
 * Python's dynamic typing is made explicit: a field holds a `PyValue`, and
 * every normalisation step is a guarded reassignment of one field, in the
 * order the generated class performs it.
 */
module PortalModel {
  import opened Wrappers
  import opened Text

  /** The generated `str` subclasses that type identifiers and references. */
  datatype IdType =
    | GeneId | PhenotypeId | AssociationId | DirectSupportAssociationId
    | IndirectSupportAssociationId | CombinedSupportAssociationId | GwasId | GeneSetId
    | GeneSetJointEffectAssociationId | GeneSetMarginalEffectAssociationId

  /**
   * `isinstance(x, target)` for an `x` of id class `t`: three id classes
   * derive from `AssociationId`, every other one only from `str`.
   */
  predicate IdIsA(t: IdType, target: IdType) {
    t == target ||
    (target == AssociationId &&
      (t == DirectSupportAssociationId || t == GeneSetJointEffectAssociationId || t == GeneSetMarginalEffectAssociationId))
  }

  /** The score classes. `IndirectSupportScore` derives from the YAML root class, not from `Score`. */
  datatype ScoreType = Score | DirectSupportScore | IndirectSupportScore | CombinedSupportScore | MarginalEffectScore | JointEffectScore

  /** `isinstance(x, Score)` for a score object of class `t`. */
  predicate IsScoreClass(t: ScoreType) {
    t != IndirectSupportScore
  }

  function ScoreClassName(t: ScoreType): string {
    match t
    case Score => "Score"
    case DirectSupportScore => "DirectSupportScore"
    case IndirectSupportScore => "IndirectSupportScore"
    case CombinedSupportScore => "CombinedSupportScore"
    case MarginalEffectScore => "MarginalEffectScore"
    case JointEffectScore => "JointEffectScore"
  }

  /** A Python value as it may be handed to a generated class's constructor. */
  datatype PyValue =
    | PyNone
    | PyStr(s: string)
    | PyId(idType: IdType, text: string)       // an instance of a generated id class (a `str`)
    | PyInt(i: int)
    | PyList(items: seq<PyValue>)
    | PyDict(entries: seq<(PyValue, PyValue)>)
    | PyScore(scoreType: ScoreType)
    | PyObject(text: string)                   // any other object, with the text `str()` gives it

  /** `isinstance(v, str)`. */
  predicate IsStr(v: PyValue) {
    v.PyStr? || v.PyId?
  }

  function StrText(v: PyValue): string
    requires IsStr(v)
  {
    if v.PyStr? then v.s else v.text
  }

  function DecimalDigits(n: nat): string
    decreases n
  {
    if n < 10 then ["0123456789"[n]] else DecimalDigits(n / 10) + ["0123456789"[n % 10]]
  }

  function Decimal(i: int): string {
    if i < 0 then "-" + DecimalDigits(-i) else DecimalDigits(i)
  }

  /** `str(v)`. */
  function Render(v: PyValue): string
    decreases v, 0
  {
    match v
    case PyNone => "None"
    case PyStr(s) => s
    case PyId(_, t) => t
    case PyInt(i) => Decimal(i)
    case PyList(items) =>
      "[" + Join(seq(|items|, i requires 0 <= i < |items| => Repr(items[i])), ", ") + "]"
    case PyDict(entries) =>
      "{" + Join(seq(|entries|, i requires 0 <= i < |entries| => Repr(entries[i].0) + ": " + Repr(entries[i].1)), ", ") + "}"
    case PyScore(t) => ScoreClassName(t) + "()"
    case PyObject(t) => t
  }

  /** `repr(v)`, as `str()` of a container shows its elements. */
  function Repr(v: PyValue): string
    decreases v, 1
  {
    if IsStr(v) then "'" + StrText(v) + "'" else Render(v)
  }

  /** The YAML root's `_is_empty`: `None`, an empty list or an empty dict. */
  predicate IsEmpty(v: PyValue) {
    v == PyNone || v == PyList([]) || v == PyDict([])
  }

  datatype ModelError = MissingRequiredField(field: string)

  // ---------------------------------------------------------------------
  // One normalisation step per kind of field
  // ---------------------------------------------------------------------

  predicate IdNormal(v: PyValue, t: IdType) {
    v.PyId? && IdIsA(v.idType, t)
  }

  predicate OptionalStrNormal(v: PyValue) {
    v == PyNone || IsStr(v)
  }

  predicate OptionalRefNormal(v: PyValue, t: IdType) {
    v == PyNone || IdNormal(v, t)
  }

  predicate XrefsNormal(v: PyValue) {
    v.PyList? && forall i :: 0 <= i < |v.items| ==> IsStr(v.items[i])
  }

  predicate ScoreNormal(v: PyValue) {
    v == PyNone || (v.PyScore? && IsScoreClass(v.scoreType))
  }

  /**
   * The required `id`: an empty value raises MissingRequiredField;
   * otherwise a value that is not already of the id class is wrapped in it,
   * keeping its `str()` text.
   */
  function RequiredId(v: PyValue, t: IdType): (r: Result<PyValue, ModelError>)
    ensures r.Failure? <==> IsEmpty(v)
    ensures r.Failure? ==> r.error == MissingRequiredField("id")
    ensures r.Success? ==> IdNormal(r.value, t) && r.value.text == Render(v)
    ensures IdNormal(v, t) ==> r == Success(v)
  {
    if IsEmpty(v) then Failure(MissingRequiredField("id"))
    else if IdNormal(v, t) then Success(v)
    else Success(PyId(t, Render(v)))
  }

  /** An optional string field: `None` stays `None`; anything else becomes its `str()`. */
  function OptionalStr(v: PyValue): (r: PyValue)
    ensures r == PyNone <==> v == PyNone
    ensures OptionalStrNormal(r)
    ensures r != PyNone ==> StrText(r) == Render(v)
    ensures IsStr(v) ==> r == v
  {
    if v != PyNone && !IsStr(v) then PyStr(Render(v)) else v
  }

  /** An optional reference: `None` stays `None`; anything else becomes an instance of the id class. */
  function OptionalRef(v: PyValue, t: IdType): (r: PyValue)
    ensures r == PyNone <==> v == PyNone
    ensures OptionalRefNormal(r, t)
    ensures r != PyNone ==> r.text == Render(v)
    ensures IdNormal(v, t) ==> r == v
  {
    if v != PyNone && !IdNormal(v, t) then PyId(t, Render(v)) else v
  }

  /** One element of `has_xrefs`: `v if isinstance(v, str) else str(v)`. */
  function AsStr(v: PyValue): (r: PyValue)
    ensures IsStr(r) && StrText(r) == Render(v)
    ensures IsStr(v) ==> r == v
  {
    if IsStr(v) then v else PyStr(Render(v))
  }

  /**
   * `has_xrefs`: always a list of strings. `None` gives the empty list, a
   * single non-list value a one-element list, and a list keeps its length
   * and order with each element turned into its `str()`.
   */
  function XrefList(v: PyValue): (r: PyValue)
    ensures XrefsNormal(r)
    ensures |r.items| == if v == PyNone then 0 else if v.PyList? then |v.items| else 1
    ensures v.PyList? ==> forall i :: 0 <= i < |v.items| ==> r.items[i] == AsStr(v.items[i])
    ensures v != PyNone && !v.PyList? ==> r.items == [AsStr(v)]
    ensures XrefsNormal(v) ==> r == v
  {
    var items := if v.PyList? then v.items else if v != PyNone then [v] else [];
    var r := PyList(seq(|items|, i requires 0 <= i < |items| => AsStr(items[i])));
    assert XrefsNormal(v) ==> r.items == v.items;
    r
  }

  /** The two `has_xrefs` steps of `__post_init__`: wrap a non-list, then turn each element into a string. */
  method NormalizeXrefs(v: PyValue) returns (r: PyValue)
    ensures r == XrefList(v)
  {
    r := v;
    if !r.PyList? {
      r := if r != PyNone then PyList([r]) else PyList([]);
    }
    var xs := r.items;
    r := PyList(seq(|xs|, i requires 0 <= i < |xs| => AsStr(xs[i])));
  }

  /** A non-`None` score that is not a `Score` is replaced by an empty `Score()`. */
  function ScoreOrEmpty(v: PyValue): (r: PyValue)
    ensures ScoreNormal(r)
    ensures r == PyNone <==> v == PyNone
    ensures ScoreNormal(v) ==> r == v
    ensures !ScoreNormal(v) ==> r == PyScore(Score)
  {
    if v != PyNone && !(v.PyScore? && IsScoreClass(v.scoreType)) then PyScore(Score) else v
  }

  /**
   * Every step is guarded by an isinstance check, so applying it to its own
   * result changes nothing: normalisation is idempotent.
   */
  lemma NormalisationIsIdempotent(v: PyValue, t: IdType)
    ensures RequiredId(v, t).Success? ==> RequiredId(RequiredId(v, t).value, t) == RequiredId(v, t)
    ensures OptionalStr(OptionalStr(v)) == OptionalStr(v)
    ensures OptionalRef(OptionalRef(v, t), t) == OptionalRef(v, t)
    ensures XrefList(XrefList(v)) == XrefList(v)
    ensures ScoreOrEmpty(ScoreOrEmpty(v)) == ScoreOrEmpty(v)
  {
  }

  /** The list of strings `xs` as a Python value. */
  function StrList(xs: seq<string>): (r: PyValue)
    ensures XrefsNormal(r) && |r.items| == |xs|
    ensures forall i :: 0 <= i < |xs| ==> r.items[i] == PyStr(xs[i])
  {
    PyList(seq(|xs|, i requires 0 <= i < |xs| => PyStr(xs[i])))
  }

  /**
   * The coercion steps of `Association.__post_init__` after the empty-id
   * check, on the values of its three fields. Subclasses run them again
   * through `super()`.
   */
  method AssociationSteps(id: PyValue, gene: PyValue, phenotype: PyValue)
    returns (id': PyValue, gene': PyValue, phenotype': PyValue)
    requires !IsEmpty(id)
    ensures id' == RequiredId(id, AssociationId).value
    ensures gene' == OptionalRef(gene, GeneId)
    ensures phenotype' == OptionalRef(phenotype, PhenotypeId)
  {
    id' := id;
    if !IdNormal(id', AssociationId) {
      id' := PyId(AssociationId, Render(id'));
    }
    assert id' == RequiredId(id, AssociationId).value;
    gene' := gene;
    if gene' != PyNone && !IdNormal(gene', GeneId) {
      gene' := PyId(GeneId, Render(gene'));
    }
    assert gene' == OptionalRef(gene, GeneId);
    phenotype' := phenotype;
    if phenotype' != PyNone && !IdNormal(phenotype', PhenotypeId) {
      phenotype' := PyId(PhenotypeId, Render(phenotype'));
    }
  }

  /**
   * Fields passed as plain strings and lists of strings come through
   * normalisation with their text unchanged; the id is only tagged with its
   * class. This is why the reconcilers' records hold plain strings.
   */
  lemma StringFieldsKeepTheirText(id: string, s: string, xs: seq<string>, t: IdType)
    ensures RequiredId(PyStr(id), t) == Success(PyId(t, id))
    ensures OptionalStr(PyStr(s)) == PyStr(s)
    ensures XrefList(StrList(xs)) == StrList(xs)
  {
  }

  // ---------------------------------------------------------------------
  // The generated classes
  // ---------------------------------------------------------------------

  class Gene {
    var id: PyValue
    var symbol: PyValue
    var hasXrefs: PyValue

    /** The dataclass constructor: the arguments are stored as given. */
    constructor (id: PyValue, symbol: PyValue, hasXrefs: PyValue)
      ensures this.id == id && this.symbol == symbol && this.hasXrefs == hasXrefs
    {
      this.id := id;
      this.symbol := symbol;
      this.hasXrefs := hasXrefs;
    }

    predicate Normalized()
      reads this
    {
      IdNormal(id, GeneId) && OptionalStrNormal(symbol) && XrefsNormal(hasXrefs)
    }

    /** `__post_init__`: check and coerce each field in turn. */
    method PostInit() returns (outcome: Outcome<ModelError>)
      modifies this
      ensures outcome.Fail? <==> IsEmpty(old(id))
      ensures outcome.Fail? ==> outcome.error == MissingRequiredField("id") && unchanged(this)
      ensures outcome.Pass? ==>
                && id == RequiredId(old(id), GeneId).value
                && symbol == OptionalStr(old(symbol))
                && hasXrefs == XrefList(old(hasXrefs))
                && Normalized()
      ensures old(Normalized()) ==> outcome.Pass? && unchanged(this)
    {
      if IsEmpty(id) {
        return Fail(MissingRequiredField("id"));
      }
      if !IdNormal(id, GeneId) {
        id := PyId(GeneId, Render(id));
      }
      assert id == RequiredId(old(id), GeneId).value;
      if symbol != PyNone && !IsStr(symbol) {
        symbol := PyStr(Render(symbol));
      }
      assert symbol == OptionalStr(old(symbol));
      hasXrefs := NormalizeXrefs(hasXrefs);
      return Pass;
    }
  }

  class Phenotype {
    var id: PyValue
    var name: PyValue
    var description: PyValue
    var displayName: PyValue
    var hasXrefs: PyValue

    /** The dataclass constructor: the arguments are stored as given. */
    constructor (id: PyValue, name: PyValue, description: PyValue, displayName: PyValue, hasXrefs: PyValue)
      ensures this.id == id && this.name == name && this.description == description
      ensures this.displayName == displayName && this.hasXrefs == hasXrefs
    {
      this.id := id;
      this.name := name;
      this.description := description;
      this.displayName := displayName;
      this.hasXrefs := hasXrefs;
    }

    predicate Normalized()
      reads this
    {
      IdNormal(id, PhenotypeId) && OptionalStrNormal(name) && OptionalStrNormal(description)
      && OptionalStrNormal(displayName) && XrefsNormal(hasXrefs)
    }

    /** `__post_init__`: check and coerce each field in turn. */
    method PostInit() returns (outcome: Outcome<ModelError>)
      modifies this
      ensures outcome.Fail? <==> IsEmpty(old(id))
      ensures outcome.Fail? ==> outcome.error == MissingRequiredField("id") && unchanged(this)
      ensures outcome.Pass? ==>
                && id == RequiredId(old(id), PhenotypeId).value
                && name == OptionalStr(old(name))
                && description == OptionalStr(old(description))
                && displayName == OptionalStr(old(displayName))
                && hasXrefs == XrefList(old(hasXrefs))
                && Normalized()
      ensures old(Normalized()) ==> outcome.Pass? && unchanged(this)
    {
      if IsEmpty(id) {
        return Fail(MissingRequiredField("id"));
      }
      if !IdNormal(id, PhenotypeId) {
        id := PyId(PhenotypeId, Render(id));
      }
      assert id == RequiredId(old(id), PhenotypeId).value;
      if name != PyNone && !IsStr(name) {
        name := PyStr(Render(name));
      }
      assert name == OptionalStr(old(name));
      if description != PyNone && !IsStr(description) {
        description := PyStr(Render(description));
      }
      assert description == OptionalStr(old(description));
      if displayName != PyNone && !IsStr(displayName) {
        displayName := PyStr(Render(displayName));
      }
      assert displayName == OptionalStr(old(displayName));
      hasXrefs := NormalizeXrefs(hasXrefs);
      return Pass;
    }
  }

  class Association {
    var id: PyValue
    var gene: PyValue
    var phenotype: PyValue

    /** The dataclass constructor: the arguments are stored as given. */
    constructor (id: PyValue, gene: PyValue, phenotype: PyValue)
      ensures this.id == id && this.gene == gene && this.phenotype == phenotype
    {
      this.id := id;
      this.gene := gene;
      this.phenotype := phenotype;
    }

    predicate Normalized()
      reads this
    {
      IdNormal(id, AssociationId) && OptionalRefNormal(gene, GeneId) && OptionalRefNormal(phenotype, PhenotypeId)
    }

    /** `__post_init__`: check and coerce each field in turn. */
    method PostInit() returns (outcome: Outcome<ModelError>)
      modifies this
      ensures outcome.Fail? <==> IsEmpty(old(id))
      ensures outcome.Fail? ==> outcome.error == MissingRequiredField("id") && unchanged(this)
      ensures outcome.Pass? ==>
                && id == RequiredId(old(id), AssociationId).value
                && gene == OptionalRef(old(gene), GeneId)
                && phenotype == OptionalRef(old(phenotype), PhenotypeId)
                && Normalized()
      ensures old(Normalized()) ==> outcome.Pass? && unchanged(this)
    {
      if IsEmpty(id) {
        return Fail(MissingRequiredField("id"));
      }
      id, gene, phenotype := AssociationSteps(id, gene, phenotype);
      return Pass;
    }
  }

  class DirectSupportAssociation {
    var id: PyValue
    var gene: PyValue
    var phenotype: PyValue
    var score: PyValue

    /** The dataclass constructor: the arguments are stored as given. */
    constructor (id: PyValue, gene: PyValue, phenotype: PyValue, score: PyValue)
      ensures this.id == id && this.gene == gene && this.phenotype == phenotype && this.score == score
    {
      this.id := id;
      this.gene := gene;
      this.phenotype := phenotype;
      this.score := score;
    }

    predicate Normalized()
      reads this
    {
      IdNormal(id, DirectSupportAssociationId) && OptionalRefNormal(gene, GeneId)
      && OptionalRefNormal(phenotype, PhenotypeId) && ScoreNormal(score)
    }

    /**
     * `__post_init__`: its own steps, then those of `Association` through
     * `super()`, which find every field already normalised.
     */
    method PostInit() returns (outcome: Outcome<ModelError>)
      modifies this
      ensures outcome.Fail? <==> IsEmpty(old(id))
      ensures outcome.Fail? ==> outcome.error == MissingRequiredField("id") && unchanged(this)
      ensures outcome.Pass? ==>
                && id == RequiredId(old(id), DirectSupportAssociationId).value
                && gene == OptionalRef(old(gene), GeneId)
                && phenotype == OptionalRef(old(phenotype), PhenotypeId)
                && score == ScoreOrEmpty(old(score))
                && Normalized()
      ensures old(Normalized()) ==> outcome.Pass? && unchanged(this)
    {
      if IsEmpty(id) {
        return Fail(MissingRequiredField("id"));
      }
      if !IdNormal(id, DirectSupportAssociationId) {
        id := PyId(DirectSupportAssociationId, Render(id));
      }
      assert id == RequiredId(old(id), DirectSupportAssociationId).value;
      if gene != PyNone && !IdNormal(gene, GeneId) {
        gene := PyId(GeneId, Render(gene));
      }
      assert gene == OptionalRef(old(gene), GeneId);
      if phenotype != PyNone && !IdNormal(phenotype, PhenotypeId) {
        phenotype := PyId(PhenotypeId, Render(phenotype));
      }
      assert phenotype == OptionalRef(old(phenotype), PhenotypeId);
      if score != PyNone && !(score.PyScore? && IsScoreClass(score.scoreType)) {
        score := PyScore(Score);
      }
      assert score == ScoreOrEmpty(old(score));
      // Association's steps, through `super()`: the id is already an association id.
      assert IdNormal(id, AssociationId);
      id, gene, phenotype := AssociationSteps(id, gene, phenotype);
      return Pass;
    }
  }

  class IndirectSupportAssociation {
    var id: PyValue
    var gene: PyValue
    var phenotype: PyValue
    var score: PyValue

    /** The dataclass constructor: the arguments are stored as given. */
    constructor (id: PyValue, gene: PyValue, phenotype: PyValue, score: PyValue)
      ensures this.id == id && this.gene == gene && this.phenotype == phenotype && this.score == score
    {
      this.id := id;
      this.gene := gene;
      this.phenotype := phenotype;
      this.score := score;
    }

    predicate Normalized()
      reads this
    {
      IdNormal(id, IndirectSupportAssociationId) && OptionalRefNormal(gene, GeneId)
      && OptionalRefNormal(phenotype, PhenotypeId) && ScoreNormal(score)
    }

    /** `__post_init__`: check and coerce each field in turn. */
    method PostInit() returns (outcome: Outcome<ModelError>)
      modifies this
      ensures outcome.Fail? <==> IsEmpty(old(id))
      ensures outcome.Fail? ==> outcome.error == MissingRequiredField("id") && unchanged(this)
      ensures outcome.Pass? ==>
                && id == RequiredId(old(id), IndirectSupportAssociationId).value
                && gene == OptionalRef(old(gene), GeneId)
                && phenotype == OptionalRef(old(phenotype), PhenotypeId)
                && score == ScoreOrEmpty(old(score))
                && Normalized()
      ensures old(Normalized()) ==> outcome.Pass? && unchanged(this)
    {
      if IsEmpty(id) {
        return Fail(MissingRequiredField("id"));
      }
      if !IdNormal(id, IndirectSupportAssociationId) {
        id := PyId(IndirectSupportAssociationId, Render(id));
      }
      assert id == RequiredId(old(id), IndirectSupportAssociationId).value;
      if gene != PyNone && !IdNormal(gene, GeneId) {
        gene := PyId(GeneId, Render(gene));
      }
      assert gene == OptionalRef(old(gene), GeneId);
      if phenotype != PyNone && !IdNormal(phenotype, PhenotypeId) {
        phenotype := PyId(PhenotypeId, Render(phenotype));
      }
      assert phenotype == OptionalRef(old(phenotype), PhenotypeId);
      if score != PyNone && !(score.PyScore? && IsScoreClass(score.scoreType)) {
        score := PyScore(Score);
      }
      assert score == ScoreOrEmpty(old(score));
      return Pass;
    }
  }

  class CombinedSupportAssociation {
    var id: PyValue
    var gene: PyValue
    var phenotype: PyValue
    var score: PyValue

    /** The dataclass constructor: the arguments are stored as given. */
    constructor (id: PyValue, gene: PyValue, phenotype: PyValue, score: PyValue)
      ensures this.id == id && this.gene == gene && this.phenotype == phenotype && this.score == score
    {
      this.id := id;
      this.gene := gene;
      this.phenotype := phenotype;
      this.score := score;
    }

    predicate Normalized()
      reads this
    {
      IdNormal(id, CombinedSupportAssociationId) && OptionalRefNormal(gene, GeneId)
      && OptionalRefNormal(phenotype, PhenotypeId) && ScoreNormal(score)
    }

    /** `__post_init__`: check and coerce each field in turn. */
    method PostInit() returns (outcome: Outcome<ModelError>)
      modifies this
      ensures outcome.Fail? <==> IsEmpty(old(id))
      ensures outcome.Fail? ==> outcome.error == MissingRequiredField("id") && unchanged(this)
      ensures outcome.Pass? ==>
                && id == RequiredId(old(id), CombinedSupportAssociationId).value
                && gene == OptionalRef(old(gene), GeneId)
                && phenotype == OptionalRef(old(phenotype), PhenotypeId)
                && score == ScoreOrEmpty(old(score))
                && Normalized()
      ensures old(Normalized()) ==> outcome.Pass? && unchanged(this)
    {
      if IsEmpty(id) {
        return Fail(MissingRequiredField("id"));
      }
      if !IdNormal(id, CombinedSupportAssociationId) {
        id := PyId(CombinedSupportAssociationId, Render(id));
      }
      assert id == RequiredId(old(id), CombinedSupportAssociationId).value;
      if gene != PyNone && !IdNormal(gene, GeneId) {
        gene := PyId(GeneId, Render(gene));
      }
      assert gene == OptionalRef(old(gene), GeneId);
      if phenotype != PyNone && !IdNormal(phenotype, PhenotypeId) {
        phenotype := PyId(PhenotypeId, Render(phenotype));
      }
      assert phenotype == OptionalRef(old(phenotype), PhenotypeId);
      if score != PyNone && !(score.PyScore? && IsScoreClass(score.scoreType)) {
        score := PyScore(Score);
      }
      assert score == ScoreOrEmpty(old(score));
      return Pass;
    }
  }

  class Gwas {
    var id: PyValue
    var description: PyValue
    var name: PyValue
    var phenotype: PyValue
    var hasXrefs: PyValue

    /** The dataclass constructor: the arguments are stored as given. */
    constructor (id: PyValue, description: PyValue, name: PyValue, phenotype: PyValue, hasXrefs: PyValue)
      ensures this.id == id && this.description == description && this.name == name
      ensures this.phenotype == phenotype && this.hasXrefs == hasXrefs
    {
      this.id := id;
      this.description := description;
      this.name := name;
      this.phenotype := phenotype;
      this.hasXrefs := hasXrefs;
    }

    predicate Normalized()
      reads this
    {
      IdNormal(id, GwasId) && OptionalStrNormal(description) && OptionalStrNormal(name)
      && OptionalRefNormal(phenotype, PhenotypeId) && XrefsNormal(hasXrefs)
    }

    /**
     * `__post_init__`: check and coerce each field in turn. A phenotype
     * handed over as an object becomes a PhenotypeId holding its `str()`.
     */
    method PostInit() returns (outcome: Outcome<ModelError>)
      modifies this
      ensures outcome.Fail? <==> IsEmpty(old(id))
      ensures outcome.Fail? ==> outcome.error == MissingRequiredField("id") && unchanged(this)
      ensures outcome.Pass? ==>
                && id == RequiredId(old(id), GwasId).value
                && description == OptionalStr(old(description))
                && name == OptionalStr(old(name))
                && phenotype == OptionalRef(old(phenotype), PhenotypeId)
                && hasXrefs == XrefList(old(hasXrefs))
                && Normalized()
      ensures old(Normalized()) ==> outcome.Pass? && unchanged(this)
    {
      if IsEmpty(id) {
        return Fail(MissingRequiredField("id"));
      }
      if !IdNormal(id, GwasId) {
        id := PyId(GwasId, Render(id));
      }
      assert id == RequiredId(old(id), GwasId).value;
      if description != PyNone && !IsStr(description) {
        description := PyStr(Render(description));
      }
      assert description == OptionalStr(old(description));
      if name != PyNone && !IsStr(name) {
        name := PyStr(Render(name));
      }
      assert name == OptionalStr(old(name));
      if phenotype != PyNone && !IdNormal(phenotype, PhenotypeId) {
        phenotype := PyId(PhenotypeId, Render(phenotype));
      }
      assert phenotype == OptionalRef(old(phenotype), PhenotypeId);
      hasXrefs := NormalizeXrefs(hasXrefs);
      return Pass;
    }
  }

  class GeneSet {
    var id: PyValue
    var name: PyValue
    var description: PyValue
    var hasXrefs: PyValue

    /** The dataclass constructor: the arguments are stored as given. */
    constructor (id: PyValue, name: PyValue, description: PyValue, hasXrefs: PyValue)
      ensures this.id == id && this.name == name && this.description == description && this.hasXrefs == hasXrefs
    {
      this.id := id;
      this.name := name;
      this.description := description;
      this.hasXrefs := hasXrefs;
    }

    predicate Normalized()
      reads this
    {
      IdNormal(id, GeneSetId) && OptionalStrNormal(name) && OptionalStrNormal(description) && XrefsNormal(hasXrefs)
    }

    /** `__post_init__`: check and coerce each field in turn. */
    method PostInit() returns (outcome: Outcome<ModelError>)
      modifies this
      ensures outcome.Fail? <==> IsEmpty(old(id))
      ensures outcome.Fail? ==> outcome.error == MissingRequiredField("id") && unchanged(this)
      ensures outcome.Pass? ==>
                && id == RequiredId(old(id), GeneSetId).value
                && name == OptionalStr(old(name))
                && description == OptionalStr(old(description))
                && hasXrefs == XrefList(old(hasXrefs))
                && Normalized()
      ensures old(Normalized()) ==> outcome.Pass? && unchanged(this)
    {
      if IsEmpty(id) {
        return Fail(MissingRequiredField("id"));
      }
      if !IdNormal(id, GeneSetId) {
        id := PyId(GeneSetId, Render(id));
      }
      assert id == RequiredId(old(id), GeneSetId).value;
      if name != PyNone && !IsStr(name) {
        name := PyStr(Render(name));
      }
      assert name == OptionalStr(old(name));
      if description != PyNone && !IsStr(description) {
        description := PyStr(Render(description));
      }
      assert description == OptionalStr(old(description));
      hasXrefs := NormalizeXrefs(hasXrefs);
      return Pass;
    }
  }

  /** The gene-set associations derive from `Association`, and so also carry its `gene` field. */
  class GeneSetJointEffectAssociation {
    var id: PyValue
    var gene: PyValue
    var phenotype: PyValue
    var geneSet: PyValue
    var score: PyValue

    /** The dataclass constructor: the arguments are stored as given. */
    constructor (id: PyValue, gene: PyValue, phenotype: PyValue, geneSet: PyValue, score: PyValue)
      ensures this.id == id && this.gene == gene && this.phenotype == phenotype
      ensures this.geneSet == geneSet && this.score == score
    {
      this.id := id;
      this.gene := gene;
      this.phenotype := phenotype;
      this.geneSet := geneSet;
      this.score := score;
    }

    predicate Normalized()
      reads this
    {
      IdNormal(id, GeneSetJointEffectAssociationId) && OptionalRefNormal(gene, GeneId)
      && OptionalRefNormal(phenotype, PhenotypeId) && OptionalRefNormal(geneSet, GeneSetId) && ScoreNormal(score)
    }

    /**
     * `__post_init__`: its own steps, then those of `Association` through
     * `super()`, which also coerce the inherited `gene` field.
     */
    method PostInit() returns (outcome: Outcome<ModelError>)
      modifies this
      ensures outcome.Fail? <==> IsEmpty(old(id))
      ensures outcome.Fail? ==> outcome.error == MissingRequiredField("id") && unchanged(this)
      ensures outcome.Pass? ==>
                && id == RequiredId(old(id), GeneSetJointEffectAssociationId).value
                && gene == OptionalRef(old(gene), GeneId)
                && phenotype == OptionalRef(old(phenotype), PhenotypeId)
                && geneSet == OptionalRef(old(geneSet), GeneSetId)
                && score == ScoreOrEmpty(old(score))
                && Normalized()
      ensures old(Normalized()) ==> outcome.Pass? && unchanged(this)
    {
      if IsEmpty(id) {
        return Fail(MissingRequiredField("id"));
      }
      if !IdNormal(id, GeneSetJointEffectAssociationId) {
        id := PyId(GeneSetJointEffectAssociationId, Render(id));
      }
      assert id == RequiredId(old(id), GeneSetJointEffectAssociationId).value;
      if geneSet != PyNone && !IdNormal(geneSet, GeneSetId) {
        geneSet := PyId(GeneSetId, Render(geneSet));
      }
      assert geneSet == OptionalRef(old(geneSet), GeneSetId);
      if phenotype != PyNone && !IdNormal(phenotype, PhenotypeId) {
        phenotype := PyId(PhenotypeId, Render(phenotype));
      }
      assert phenotype == OptionalRef(old(phenotype), PhenotypeId);
      if score != PyNone && !(score.PyScore? && IsScoreClass(score.scoreType)) {
        score := PyScore(Score);
      }
      assert score == ScoreOrEmpty(old(score));
      // Association's steps, through `super()`: the id is already an association id.
      assert IdNormal(id, AssociationId);
      id, gene, phenotype := AssociationSteps(id, gene, phenotype);
      return Pass;
    }
  }

  class GeneSetMarginalEffectAssociation {
    var id: PyValue
    var gene: PyValue
    var phenotype: PyValue
    var geneSet: PyValue
    var score: PyValue

    /** The dataclass constructor: the arguments are stored as given. */
    constructor (id: PyValue, gene: PyValue, phenotype: PyValue, geneSet: PyValue, score: PyValue)
      ensures this.id == id && this.gene == gene && this.phenotype == phenotype
      ensures this.geneSet == geneSet && this.score == score
    {
      this.id := id;
      this.gene := gene;
      this.phenotype := phenotype;
      this.geneSet := geneSet;
      this.score := score;
    }

    predicate Normalized()
      reads this
    {
      IdNormal(id, GeneSetMarginalEffectAssociationId) && OptionalRefNormal(gene, GeneId)
      && OptionalRefNormal(phenotype, PhenotypeId) && OptionalRefNormal(geneSet, GeneSetId) && ScoreNormal(score)
    }

    /**
     * `__post_init__`: its own steps, then those of `Association` through
     * `super()`, which also coerce the inherited `gene` field.
     */
    method PostInit() returns (outcome: Outcome<ModelError>)
      modifies this
      ensures outcome.Fail? <==> IsEmpty(old(id))
      ensures outcome.Fail? ==> outcome.error == MissingRequiredField("id") && unchanged(this)
      ensures outcome.Pass? ==>
                && id == RequiredId(old(id), GeneSetMarginalEffectAssociationId).value
                && gene == OptionalRef(old(gene), GeneId)
                && phenotype == OptionalRef(old(phenotype), PhenotypeId)
                && geneSet == OptionalRef(old(geneSet), GeneSetId)
                && score == ScoreOrEmpty(old(score))
                && Normalized()
      ensures old(Normalized()) ==> outcome.Pass? && unchanged(this)
    {
      if IsEmpty(id) {
        return Fail(MissingRequiredField("id"));
      }
      if !IdNormal(id, GeneSetMarginalEffectAssociationId) {
        id := PyId(GeneSetMarginalEffectAssociationId, Render(id));
      }
      assert id == RequiredId(old(id), GeneSetMarginalEffectAssociationId).value;
      if geneSet != PyNone && !IdNormal(geneSet, GeneSetId) {
        geneSet := PyId(GeneSetId, Render(geneSet));
      }
      assert geneSet == OptionalRef(old(geneSet), GeneSetId);
      if phenotype != PyNone && !IdNormal(phenotype, PhenotypeId) {
        phenotype := PyId(PhenotypeId, Render(phenotype));
      }
      assert phenotype == OptionalRef(old(phenotype), PhenotypeId);
      if score != PyNone && !(score.PyScore? && IsScoreClass(score.scoreType)) {
        score := PyScore(Score);
      }
      assert score == ScoreOrEmpty(old(score));
      // Association's steps, through `super()`: the id is already an association id.
      assert IdNormal(id, AssociationId);
      id, gene, phenotype := AssociationSteps(id, gene, phenotype);
      return Pass;
    }
  }
}
