/**
  The hybrid Rego generator (rego_generator.py). The template library, `opa check` and the
  LLM are foreign, so they are function parameters: the results hold whatever they answer.
 */
module RegoGenerator {
  import opened Common

  datatype Generation = TemplateMapped | LlmFallback | CustomerAuthored

  /** A hit in target_mappings that has a template. */
  datatype Mapping = Mapping(subtype: Option<string>, template: string)

  datatype GeneratedRego = GeneratedRego(
    system: string, subtype: Option<string>, text: string, generation: Generation,
    confidence: Option<real>, pending: bool, opaOk: bool, llmAttempts: nat)

  /** One prompt to the LLM: the first one, or the repair prompt that quotes the failed text. */
  datatype Prompt = First(system: string) | Repair(system: string, failed: string)

  /** What generation reads from outside: target_mappings, Jinja, `opa check`, the LLM, a setting. */
  datatype Outside = Outside(
    lookup: string -> Option<Mapping>,
    render: string -> string,
    opaCheck: string -> bool,
    author: Prompt -> Option<string>,
    repairAttempts: int)

  /** A result is put up for review exactly when its own final text passes `opa check`. */
  ghost predicate HonestResult(o: Outside, g: GeneratedRego) {
    && g.pending == g.opaOk == o.opaCheck(g.text)
    && g.llmAttempts <= 2
    && (g.llmAttempts == 0 <==> g.generation == TemplateMapped)
    && (g.generation == TemplateMapped ==>
          && o.lookup(g.system).Some?
          && g.text == o.render(o.lookup(g.system).value.template)
          && g.subtype == o.lookup(g.system).value.subtype
          && g.confidence == Some(if g.opaOk then 1.0 else 0.5))
    && (g.generation != TemplateMapped ==>
          && o.lookup(g.system).None? && g.generation == LlmFallback && g.subtype == None && g.confidence == None)
    // The text is the LLM's first answer, or its answer to the repair of a first answer that failed.
    && (g.llmAttempts == 1 ==>
          && o.author(First(g.system)) == Some(g.text)
          && (g.opaOk || o.repairAttempts < 1))
    && (g.llmAttempts == 2 ==>
          && o.repairAttempts >= 1
          && o.author(First(g.system)).Some?
          && !o.opaCheck(o.author(First(g.system)).value)
          && o.author(Repair(g.system, o.author(First(g.system)).value)) == Some(g.text))
  }

  /** The LLM gets a text out for the system: at the first try, or at the repair that a failed check allows. */
  ghost predicate Answers(o: Outside, system: string) {
    && o.author(First(system)).Some?
    && var first := o.author(First(system)).value;
       o.opaCheck(first) || o.repairAttempts < 1 || o.author(Repair(system, first)).Some?
  }

  /** The fallback path: at most one repair. An empty LLM answer fails the request. */
  method GenerateViaLlm(o: Outside, system: string) returns (r: Result<GeneratedRego>)
    requires o.lookup(system).None?
    ensures r.Ok? ==> HonestResult(o, r.value) && r.value.system == system && r.value.llmAttempts > 0
    ensures r.Err? ==> r.error == ServerError
    ensures r.Ok? <==> Answers(o, system)
  {
    var text := o.author(First(system));
    if text.None? { return Err(ServerError); }
    var ok := o.opaCheck(text.value);
    if ok || o.repairAttempts < 1 {
      return Ok(GeneratedRego(system, None, text.value, LlmFallback, None, ok, ok, 1));
    }
    var repaired := o.author(Repair(system, text.value));
    if repaired.None? { return Err(ServerError); }
    ok := o.opaCheck(repaired.value);
    return Ok(GeneratedRego(system, None, repaired.value, LlmFallback, None, ok, ok, 2));
  }

  /** One result per applicable target system, in order; nothing when the list is empty. */
  method GenerateTargets(o: Outside, applicability: seq<string>) returns (r: Result<seq<GeneratedRego>>)
    ensures r.Ok? ==> |r.value| == |applicability|
    ensures r.Ok? ==> forall k :: 0 <= k < |applicability| ==>
                        r.value[k].system == applicability[k] && HonestResult(o, r.value[k])
    ensures r.Ok? <==> forall k :: 0 <= k < |applicability| ==> o.lookup(applicability[k]).Some? || Answers(o, applicability[k])
    ensures r.Err? ==> r.error == ServerError
  {
    var results: seq<GeneratedRego> := [];
    for i := 0 to |applicability|
      invariant |results| == i
      invariant forall k :: 0 <= k < i ==> results[k].system == applicability[k] && HonestResult(o, results[k])
      invariant forall k :: 0 <= k < i ==> o.lookup(applicability[k]).Some? || Answers(o, applicability[k])
    {
      var mapping := o.lookup(applicability[i]);
      if mapping.Some? {
        var text := o.render(mapping.value.template);
        var ok := o.opaCheck(text);
        results := results + [GeneratedRego(
          applicability[i], mapping.value.subtype, text, TemplateMapped,
          Some(if ok then 1.0 else 0.5), ok, ok, 0)];
      } else {
        var g := GenerateViaLlm(o, applicability[i]);
        if g.Err? { return Err(g.error); }
        results := results + [g.value];
      }
    }
    return Ok(results);
  }

}
