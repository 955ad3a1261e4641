/** The static catalog of supported models and the choice of the most
    powerful model a subscription allows for a task. */
module Catalog {
  import opened Wrappers
  import opened Strings

  datatype TaskType = Code | Refactor | Planning | Vision | Debugging

  datatype Latency = Low | Medium | High

  datatype AIModel = AIModel(
    id: string,
    name: string,
    description: string,
    kind: TaskType,
    parameters: nat,
    context: nat,
    latency: Latency,
    specialization: Option<string>,
    isActive: bool,
    selfImproving: Option<bool>,
    errorDetection: Option<bool>)

  const AutoFix := AIModel("omnidev-autofix", "OmniDev AutoFix (32B)",
    "Advanced self-improving model with automatic error detection and fixing capabilities",
    Debugging, 32000000000, 16384, Low, Some("error detection and repair"), true, Some(true), Some(true))
  const StarCoder := AIModel("starcoder", "StarCoder (15.5B)",
    "Permissively-licensed model trained on 1T tokens across 80+ languages",
    Code, 15500000000, 8192, Medium, None, true, None, None)
  const CodeGen := AIModel("codegen", "Salesforce CodeGen (16B)",
    "Program-synthesis model trained on TPU-v4 supporting many languages",
    Code, 16000000000, 2048, Medium, None, true, None, None)
  const CodeLlama := AIModel("codellama", "Meta CodeLlama (34B)",
    "Llama 2-based code model with advanced infilling capabilities",
    Code, 34000000000, 16384, High, None, true, None, None)
  const CodeT5 := AIModel("codet5", "CodeT5 (220M+)",
    "Unified model for code understanding with identifier-aware pretraining",
    Code, 220000000, 512, Low, Some("Python"), true, None, None)
  const CodeParrot := AIModel("codeparrot", "CodeParrot (1.5B)",
    "GPT-2–based model focused on Python code generation",
    Code, 1500000000, 1024, Low, Some("Python"), true, None, None)
  const PolyCoder := AIModel("polycoder", "PolyCoder (2.7B)",
    "Trained on 249 GB of code in 12 languages, ideal for systems-level code",
    Code, 2700000000, 2048, Low, Some("C"), true, None, None)
  const DiffCodeGen := AIModel("diffcodegen", "Diff-CodeGen (350M)",
    "Diff-based CodeGen variant trained on real GitHub commits",
    Refactor, 350000000, 2048, Low, None, true, None, None)
  const GptJ := AIModel("gptj", "GPT-J-6B",
    "6B-parameter model for general NL tasks and architecture planning",
    Planning, 6000000000, 2048, Medium, None, true, None, None)
  const StableDiffusion := AIModel("stablediffusion", "Stable Diffusion",
    "Text-to-image model for generating UI assets and mockups",
    Vision, 2000000000, 77, High, None, true, None, None)
  const Sam := AIModel("sam", "Segment Anything Model (SAM)",
    "Foundation vision model for detecting UI element boundaries",
    Vision, 1000000000, 1024, Medium, None, true, None, None)
  const Clip := AIModel("clip", "CLIP",
    "Vision-language model for matching image regions to text prompts",
    Vision, 500000000, 77, Low, None, true, None, None)

  /** `SUPPORTED_MODELS`, in declaration order. */
  function SupportedModels(): seq<AIModel>
  {
    [AutoFix, StarCoder, CodeGen, CodeLlama, CodeT5, CodeParrot,
     PolyCoder, DiffCodeGen, GptJ, StableDiffusion, Sam, Clip]
  }

  ghost predicate UniqueIds(catalog: seq<AIModel>) {
    forall i, j :: 0 <= i < j < |catalog| ==> catalog[i].id != catalog[j].id
  }

  function CatalogIds(): seq<string>
  {
    ["omnidev-autofix", "starcoder", "codegen", "codellama", "codet5", "codeparrot",
     "polycoder", "diffcodegen", "gptj", "stablediffusion", "sam", "clip"]
  }

  lemma CatalogIdsDistinct()
    ensures forall i, j :: 0 <= i < j < |CatalogIds()| ==> CatalogIds()[i] != CatalogIds()[j]
  {
    var ids := CatalogIds();
    forall i, j | 0 <= i < j < |ids| ensures ids[i] != ids[j] {
      if |ids[i]| == |ids[j]| {
        assert ids[i][..3] != ids[j][..3] || ids[i][3..] != ids[j][3..];
      }
    }
  }

  lemma CatalogIdsLowerCase()
    ensures forall i :: 0 <= i < |CatalogIds()| ==> IsLowerCase(CatalogIds()[i])
  {
  }

  /** `CatalogIds` lists the catalog's identifiers in catalog order. */
  lemma CatalogIdsMatch()
    ensures |CatalogIds()| == |SupportedModels()|
    ensures forall i :: 0 <= i < |CatalogIds()| ==> CatalogIds()[i] == SupportedModels()[i].id
  {
  }

  /** Looking an identifier up in the catalog finds a model exactly when
      the identifier is listed. */
  lemma FindInCatalog(id: string)
    ensures FindById(SupportedModels(), id).Some? <==> id in CatalogIds()
  {
    var cat := SupportedModels();
    var ids := CatalogIds();
    CatalogIdsMatch();
    if id in ids {
      var i :| 0 <= i < |ids| && ids[i] == id;
      assert cat[i] in cat;
    }
    if FindById(cat, id).Some? {
      var m := FindById(cat, id).value;
      var i :| 0 <= i < |cat| && cat[i] == m;
      assert ids[i] == id;
    }
  }

  /** Every identifier in the catalog is unique, every entry is active and
      every identifier is already lower-case. */
  lemma SupportedModelsWellFormed()
    ensures UniqueIds(SupportedModels())
    ensures forall m :: m in SupportedModels() ==> m.isActive && IsLowerCase(m.id)
  {
    var cat, ids := SupportedModels(), CatalogIds();
    assert |cat| == |ids|;
    CatalogIdsDistinct();
    CatalogIdsLowerCase();
    forall i | 0 <= i < |cat| ensures cat[i].id == ids[i] && cat[i].isActive { }
    forall i, j | 0 <= i < j < |cat| ensures cat[i].id != cat[j].id {
      assert cat[i].id == ids[i] && cat[j].id == ids[j];
    }
    forall m | m in cat ensures m.isActive && IsLowerCase(m.id) {
      var i :| 0 <= i < |cat| && cat[i] == m;
      assert cat[i].id == ids[i] && cat[i].isActive;
    }
  }

  /** `SUPPORTED_MODELS.find(m => m.id === modelId)`: the explicit-model path,
      a plain catalog lookup with no entitlement check. */
  function FindById(catalog: seq<AIModel>, id: string): (r: Option<AIModel>)
    ensures r.Some? ==> r.value in catalog && r.value.id == id
    ensures r.None? <==> forall m :: m in catalog ==> m.id != id
  {
    if |catalog| == 0 then None
    else if catalog[0].id == id then Some(catalog[0])
    else FindById(catalog[1..], id)
  }

  /** A model the task may use: of the requested type, active, and whose id
      is one of the allowed (lower-cased) names. */
  predicate Eligible(m: AIModel, kind: TaskType, allowedIds: seq<string>) {
    m.kind == kind && m.isActive && m.id in allowedIds
  }

  /** The eligible models, in catalog order. */
  function EligibleModels(catalog: seq<AIModel>, kind: TaskType, allowedIds: seq<string>): (r: seq<AIModel>)
    ensures forall m :: m in r <==> m in catalog && Eligible(m, kind, allowedIds)
  {
    if |catalog| == 0 then []
    else
      var rest := EligibleModels(catalog[1..], kind, allowedIds);
      if Eligible(catalog[0], kind, allowedIds) then [catalog[0]] + rest else rest
  }

  /** The element a stable descending sort by `parameters` puts first: a
      model with the most parameters, the earliest of them on a tie. */
  function Strongest(ms: seq<AIModel>): (r: Option<AIModel>)
    ensures r.None? <==> ms == []
    ensures r.Some? ==> (exists k :: 0 <= k < |ms| && ms[k] == r.value
                          && (forall j :: 0 <= j < k ==> ms[j].parameters < r.value.parameters)
                          && (forall j :: k <= j < |ms| ==> ms[j].parameters <= r.value.parameters))
  {
    if |ms| == 0 then None
    else match Strongest(ms[1..])
      case None => Some(ms[0])
      case Some(b) =>
        if b.parameters > ms[0].parameters then Some(b) else Some(ms[0])
  }

  function LowerAll(names: seq<string>): (r: seq<string>)
    ensures |r| == |names|
    ensures forall i :: 0 <= i < |names| ==> r[i] == ToLower(names[i])
  {
    seq(|names|, i requires 0 <= i < |names| => ToLower(names[i]))
  }

  /** The catalog-side half of `selectAppropriateModel`: filter the catalog
      by task type, activity and the allowed names, then take the strongest. */
  function SelectModel(catalog: seq<AIModel>, kind: TaskType, allowedNames: seq<string>): (r: Option<AIModel>)
    ensures r.Some? ==> r.value in catalog && Eligible(r.value, kind, LowerAll(allowedNames))
  {
    Strongest(EligibleModels(catalog, kind, LowerAll(allowedNames)))
  }

  /** There is no model exactly when no catalog entry of the requested type
      is active and has an id equal to some lower-cased allowed name. */
  lemma SelectModelNone(catalog: seq<AIModel>, kind: TaskType, allowedNames: seq<string>)
    ensures SelectModel(catalog, kind, allowedNames).None? <==>
      forall m :: m in catalog ==> !(m.kind == kind && m.isActive && exists n :: n in allowedNames && ToLower(n) == m.id)
  {
    var ids := LowerAll(allowedNames);
    var e := EligibleModels(catalog, kind, ids);
    forall m | m in catalog
      ensures m.id in ids <==> exists n :: n in allowedNames && ToLower(n) == m.id
    {
      if m.id in ids {
        var i :| 0 <= i < |ids| && ids[i] == m.id;
        assert allowedNames[i] in allowedNames;
      }
    }
    if e != [] {
      assert e[0] in e;
    }
  }

  /** The chosen model is eligible, has at least as many parameters as any
      other eligible model, and strictly more than every eligible model that
      comes before it in the catalog. */
  lemma SelectModelMaximal(catalog: seq<AIModel>, kind: TaskType, allowedNames: seq<string>)
    requires SelectModel(catalog, kind, allowedNames).Some?
    ensures var r := SelectModel(catalog, kind, allowedNames).value;
      r in catalog && Eligible(r, kind, LowerAll(allowedNames))
      && (forall m :: m in catalog && Eligible(m, kind, LowerAll(allowedNames)) ==> m.parameters <= r.parameters)
      && (exists k :: EarliestStrongestAt(catalog, kind, LowerAll(allowedNames), r, k))
  {
    var ids := LowerAll(allowedNames);
    FirstStrongest(catalog, kind, ids);
    StrongestOfEligible(catalog, kind, ids);
  }

  /** The strongest eligible model has at least the parameters of every
      eligible model of the catalog. */
  lemma StrongestOfEligible(catalog: seq<AIModel>, kind: TaskType, allowedIds: seq<string>)
    requires Strongest(EligibleModels(catalog, kind, allowedIds)).Some?
    ensures var r := Strongest(EligibleModels(catalog, kind, allowedIds)).value;
      forall m :: m in catalog && Eligible(m, kind, allowedIds) ==> m.parameters <= r.parameters
  {
    var e := EligibleModels(catalog, kind, allowedIds);
    var r := Strongest(e).value;
    var k :| 0 <= k < |e| && e[k] == r
      && (forall j :: 0 <= j < k ==> e[j].parameters < r.parameters)
      && (forall j :: k <= j < |e| ==> e[j].parameters <= r.parameters);
    forall m | m in catalog && Eligible(m, kind, allowedIds)
      ensures m.parameters <= r.parameters
    {
      assert m in e;
      var j :| 0 <= j < |e| && e[j] == m;
    }
  }

  /** `m` sits at index `k` of the catalog and every eligible model before
      it has strictly fewer parameters. */
  ghost predicate EarliestStrongestAt(catalog: seq<AIModel>, kind: TaskType, allowedIds: seq<string>, m: AIModel, k: int)
  {
    0 <= k < |catalog| && catalog[k] == m
    && forall j :: 0 <= j < k && Eligible(catalog[j], kind, allowedIds) ==> catalog[j].parameters < m.parameters
  }

  /** On a tie the earliest eligible model in catalog order wins: every
      eligible model before the chosen one has strictly fewer parameters. */
  lemma {:induction false} FirstStrongest(catalog: seq<AIModel>, kind: TaskType, allowedIds: seq<string>)
    ensures var r := Strongest(EligibleModels(catalog, kind, allowedIds));
      r.Some? ==> exists k :: EarliestStrongestAt(catalog, kind, allowedIds, r.value, k)
    decreases |catalog|
  {
    if |catalog| > 0 {
      var r := Strongest(EligibleModels(catalog, kind, allowedIds));
      if r.Some? {
        if r.value == catalog[0] {
          assert EarliestStrongestAt(catalog, kind, allowedIds, catalog[0], 0);
        } else {
          FirstStrongest(catalog[1..], kind, allowedIds);
          TailChoice(catalog, kind, allowedIds);
          var k :| EarliestStrongestAt(catalog[1..], kind, allowedIds, r.value, k);
          ShiftEarliest(catalog, kind, allowedIds, r.value, k);
        }
      }
    }
  }

  lemma ShiftEarliest(catalog: seq<AIModel>, kind: TaskType, allowedIds: seq<string>, m: AIModel, k: int)
    requires |catalog| > 0 && EarliestStrongestAt(catalog[1..], kind, allowedIds, m, k)
    requires Eligible(catalog[0], kind, allowedIds) ==> catalog[0].parameters < m.parameters
    ensures EarliestStrongestAt(catalog, kind, allowedIds, m, k + 1)
  {
    forall j | 0 <= j < k + 1 && Eligible(catalog[j], kind, allowedIds)
      ensures catalog[j].parameters < m.parameters
    {
      if j > 0 {
        assert catalog[j] == catalog[1..][j - 1];
      }
    }
  }

  /** A choice other than the catalog's first model is the choice over the
      rest of the catalog, and beats the first model when that is eligible. */
  lemma TailChoice(catalog: seq<AIModel>, kind: TaskType, allowedIds: seq<string>)
    requires |catalog| > 0
    requires Strongest(EligibleModels(catalog, kind, allowedIds)).Some?
    requires Strongest(EligibleModels(catalog, kind, allowedIds)).value != catalog[0]
    ensures var b := Strongest(EligibleModels(catalog, kind, allowedIds)).value;
      && Strongest(EligibleModels(catalog[1..], kind, allowedIds)) == Some(b)
      && (Eligible(catalog[0], kind, allowedIds) ==> catalog[0].parameters < b.parameters)
  {
    var rest := EligibleModels(catalog[1..], kind, allowedIds);
    var e := EligibleModels(catalog, kind, allowedIds);
    if Eligible(catalog[0], kind, allowedIds) {
      assert e == [catalog[0]] + rest && e[1..] == rest;
    } else {
      assert e == rest;
    }
  }
}
