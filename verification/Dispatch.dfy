/** The dispatcher: a due turn job through the slot, the gate and the spend record. */
module Dispatch {
  import opened Options
  import opened Clock
  import opened Text
  import opened Arbitration
  import opened Budget

  /** A job's prompt: built at dispatch - the builder may raise - or static, possibly missing. */
  datatype PromptSource = BuilderRaised | BuilderGave(text: Option<string>) | Static(text: Option<string>)

  function ResolvePrompt(source: PromptSource): Option<string> {
    match source
    case BuilderRaised => None
    case BuilderGave(text) => if text.None? || Strip(text.value) == "" then None else Some(Strip(text.value))
    case Static(text) => if text == Some("") then None else text
  }

  /** A built prompt goes out trimmed, and a blank one not at all; a static one goes out as it is, unless empty. */
  lemma PromptIsExact(source: PromptSource)
    ensures match ResolvePrompt(source)
            case Some(prompt) =>
              || (source.BuilderGave? && source.text.Some? && IsTrimmed(source.text.value, prompt))
              || (source == Static(Some(prompt)) && prompt != "")
            case None =>
              || source.BuilderRaised? || source.text.None?
              || (if source.BuilderGave? then AllSpace(source.text.value) else source.text.value == "")
  {
    if source.BuilderGave? && source.text.Some? { StripTrims(source.text.value); }
    hide Strip, IsTrimmed, AllSpace;
  }

  class TurnDispatcher {
    const arbiter: Arbiter
    const gate: Gate
    var ledger: Ledger

    constructor (arbiter: Arbiter, gate: Gate, ledger: Ledger)
      ensures this.arbiter == arbiter && this.gate == gate && this.ledger == ledger
    {
      this.arbiter, this.gate, this.ledger := arbiter, gate, ledger;
    }

    /** A turn is started exactly for an admitted proposal on a free slot, after its spend is recorded;
        a failed record frees the slot again and spends nothing. */
    method DispatchTurnJob(source: PromptSource, p: Proposal) returns (started: Option<string>)
      modifies this`ledger, arbiter
      ensures var free, prompt := old(arbiter.IsIdle()), ResolvePrompt(source);
              && started == (if free && Admits(gate, old(ledger), p) then prompt else None)
              && ledger == (if free && prompt.Some? then Spend(gate, old(ledger), p) else old(ledger))
              && (started.Some? ==> arbiter.View() == old(arbiter.View()).Submit(started.value))
              && (started.None? ==> arbiter.IsIdle() == free && (!free || old(arbiter.pending) == [] ==>
                                      arbiter.View() == old(arbiter.View())))
    {
      var text := ResolvePrompt(source);
      if text.None? {
        return None;
      }
      if !arbiter.IsIdle() {
        return None;
      }
      var decision := gate.Evaluate(ledger, p.at, p.cost);
      if decision == Defer || decision == Skip {
        return None;
      }
      var prompt := arbiter.Submit(text.value);
      if !p.recorded {
        arbiter.Reset();
        return None;
      }
      ledger := gate.AdmissionPatch(ledger, p.at, p.cost);
      return prompt;
    }
  }
}
