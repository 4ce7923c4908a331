/** The fan-out shared by both summary services (services/geminiService.ts and
    src/services/geminiService.ts): one provider call per requested summary,
    joined all-or-nothing. */
module Generation {
  import opened Wrappers
  import opened Constants

  /** Which summaries to produce, and at what length. */
  datatype Options = Options(generateTechnical: bool, generateSimplified: bool, size: Size)

  /** The two kinds of summary. */
  datatype Kind = Technical | Simplified

  /** The result object; an unrequested summary is left undefined. */
  datatype Summaries = Summaries(technical: Option<string>, simplified: Option<string>)

  /** The kinds the options ask for, technical first. */
  function Requested(options: Options): (r: seq<Kind>)
    ensures Technical in r <==> options.generateTechnical
    ensures Simplified in r <==> options.generateSimplified
    ensures |r| <= 2 && (|r| == 2 ==> r == [Technical, Simplified])
  {
    (if options.generateTechnical then [Technical] else [])
    + (if options.generateSimplified then [Simplified] else [])
  }

  /** `Promise.all` over the two slots: all values when every slot succeeded,
      otherwise the first failure in slot order. */
  function JoinAll(technical: Result<Option<string>, string>, simplified: Result<Option<string>, string>): (r: Result<Summaries, string>)
    ensures r.Success? <==> technical.Success? && simplified.Success?
    ensures r.Success? ==> r.value == Summaries(technical.value, simplified.value)
    ensures technical.Failure? ==> r.error == technical.error
    ensures technical.Success? && simplified.Failure? ==> r.error == simplified.error
  {
    if technical.Failure? then Failure(technical.error)
    else if simplified.Failure? then Failure(simplified.error)
    else Success(Summaries(technical.value, simplified.value))
  }

  /** What a summary call's promise settles to: the resolved value, which may
      be undefined, or the message it rejects with. */
  type Reply = Result<Option<string>, string>

  /** A call that always resolves to a string, as a reply. */
  function Resolved(call: Result<string, string>): (r: Reply)
    ensures r.Success? <==> call.Success?
    ensures r.Success? ==> r.value == Some(call.value)
    ensures r.Failure? ==> r.error == call.error
  {
    if call.Success? then Success(Some(call.value)) else Failure(call.error)
  }

  /** A slot of the join: the call's reply when requested, an undefined
      field otherwise. */
  function RequestSlot(requested: bool, call: Reply): Reply
  {
    if requested then call else Success(None)
  }

  /** What `generateSummaries` resolves to over a summary call. */
  function Outcome(options: Options, call: Kind -> Reply): Result<Summaries, string>
  {
    JoinAll(RequestSlot(options.generateTechnical, call(Technical)),
            RequestSlot(options.generateSimplified, call(Simplified)))
  }

  /** A failed outcome carries the error of a requested call that failed:
      the technical one when it failed, the simplified one otherwise. */
  lemma OutcomeFailure(options: Options, call: Kind -> Reply)
    ensures Outcome(options, call).Failure? <==>
      (options.generateTechnical && call(Technical).Failure?)
      || (options.generateSimplified && call(Simplified).Failure?)
    ensures options.generateTechnical && call(Technical).Failure? ==>
      Outcome(options, call) == Failure(call(Technical).error)
    ensures ((!options.generateTechnical || call(Technical).Success?)
             && options.generateSimplified && call(Simplified).Failure?) ==>
      Outcome(options, call) == Failure(call(Simplified).error)
  {
  }

  /** `generateSummaries` over a summary call: nothing requested gives the empty
      result without any call; otherwise each requested kind is called once,
      technical first, and the results are joined all-or-nothing. */
  method GenerateSummaries(options: Options, call: Kind -> Reply)
    returns (r: Result<Summaries, string>, issued: seq<Kind>)
    ensures issued == Requested(options)
    ensures r == Outcome(options, call)
    ensures r.Success? <==> forall k | k in issued :: call(k).Success?
    ensures r.Success? ==> r.value.technical == (if options.generateTechnical then call(Technical).value else None)
    ensures r.Success? ==> r.value.simplified == (if options.generateSimplified then call(Simplified).value else None)
    ensures r.Failure? ==> exists k | k in issued :: call(k) == Failure(r.error)
    ensures options.generateTechnical && call(Technical).Failure? ==> r == Failure(call(Technical).error)
    ensures issued == [] ==> r == Success(Summaries(None, None))
  {
    if !options.generateTechnical && !options.generateSimplified {
      return Success(Summaries(None, None)), [];
    }
    issued := [];
    var technical: Result<Option<string>, string> := Success(None);
    if options.generateTechnical {
      var c := call(Technical);
      issued := issued + [Technical];
      technical := c;
    }
    var simplified: Result<Option<string>, string> := Success(None);
    if options.generateSimplified {
      var c := call(Simplified);
      issued := issued + [Simplified];
      simplified := c;
    }
    r := JoinAll(technical, simplified);
  }
}
