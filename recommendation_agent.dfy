/**
 * The micro-action generator of the recommendation agent: the language model's reply is cleaned
 * up into JSON, decoded into micro-actions, and post-processed: actions off the requested
 * priority or category are dropped, each kept one is stamped with an id, a creation time and
 * default target positions, and the list is cut at the limit.
 */
module RecommendationAgent {
  import opened Wrappers
  import PyText
  import LlmJson

  // ---------------------------------------------------------------- clean_llm_json

  /** Steps 1 to 6 of `clean_llm_json`: fences, outermost braces, control characters, curly
   *  quotes, missing closing quotes, trailing commas. Step 3 removes every newline, so the
   *  repair of step 5 never finds one and the text is that of the other five steps. */
  function CleanedText(raw: string): (r: string)
    ensures r == LlmJson.DropTrailingCommas(LlmJson.StraightenQuotes(
      LlmJson.DropControls(LlmJson.ExtractObject(LlmJson.StripFences(raw)))))
  {
    var d := LlmJson.DropControls(LlmJson.ExtractObject(LlmJson.StripFences(raw)));
    var q := LlmJson.StraightenQuotes(d);
    assert '\n' !in q by {
      assert LlmJson.IsControl('\n');
      assert forall i :: 0 <= i < |q| ==> q[i] != '\n' by {
        forall i | 0 <= i < |q| ensures q[i] != '\n' {
          if !LlmJson.IsCurlyQuote(d[i]) {
            assert q[i] == d[i];
          }
        }
      }
    }
    LlmJson.CloseQuotesWithoutNewline(q);
    LlmJson.DropTrailingCommas(LlmJson.CloseQuotes(q))
  }

  /** `clean_llm_json`: the cleaned text decoded by `loads` (standing for `json.loads`), or a
   *  `ValueError`. The second attempt at line 209 decodes the same text, so it fails again. */
  function CleanLlmJson<J>(raw: string, loads: string -> Outcome<J>): (r: Outcome<J>)
    ensures r.Done? <==> loads(CleanedText(raw)).Done?
    ensures r.Done? ==> r == loads(CleanedText(raw))
    ensures r.Raised? ==> r.message == "Failed to clean/parse JSON: " + loads(CleanedText(raw)).message
  {
    match loads(CleanedText(raw))
    case Done(j) => Done(j)
    case Raised(m) => Raised("Failed to clean/parse JSON: " + m)
  }

  /** Step 6 only removes characters. */
  lemma {:induction false} DropTrailingCommasSubset(s: string)
    ensures forall c :: c in LlmJson.DropTrailingCommas(s) ==> c in s
    decreases |s|
  {
    if s != [] {
      var rest := PyText.LStrip(s[1..]);
      if s[0] == ',' && rest != [] && LlmJson.IsCloser(rest[0]) {
        var n := |s| - |rest|;
        assert rest == s[n..];
        DropTrailingCommasSubset(s[n + 1..]);
        SuffixMembers(s, n);
        SuffixMembers(s, n + 1);
      } else {
        DropTrailingCommasSubset(s[1..]);
        SuffixMembers(s, 1);
      }
    }
  }

  lemma SuffixMembers(s: string, n: nat)
    requires n <= |s|
    ensures forall c :: c in s[n..] ==> c in s
  {
  }

  /** The cleaned text holds no control character and no curly quote. */
  lemma CleanedTextIsPlain(raw: string)
    ensures forall c :: c in CleanedText(raw) ==> !LlmJson.IsControl(c) && !LlmJson.IsCurlyQuote(c)
  {
    var d := LlmJson.DropControls(LlmJson.ExtractObject(LlmJson.StripFences(raw)));
    var q := LlmJson.StraightenQuotes(d);
    assert forall c :: c in q ==> !LlmJson.IsControl(c) && !LlmJson.IsCurlyQuote(c) by {
      forall c | c in q ensures !LlmJson.IsControl(c) && !LlmJson.IsCurlyQuote(c) {
        var i :| 0 <= i < |q| && q[i] == c;
        if !LlmJson.IsCurlyQuote(d[i]) {
          assert d[i] in d;
        }
      }
    }
    DropTrailingCommasSubset(q);
  }

  // ---------------------------------------------------------------- micro-actions

  datatype MicroAction = MicroAction(
    id: Option<string>,
    title: string,
    description: string,
    category: string,
    targetIssue: string,
    priority: string,
    estimatedImpact: string,
    targetPositions: seq<string>,
    createdAt: Option<string>,
    reason: string)

  /** The filters and limit of a request. */
  datatype Request = Request(department: Option<string>, priority: Option<string>, category: Option<string>, limit: int)

  /** The action passes the priority and category filters that are given, compared
   *  lower-cased. */
  predicate Matches(req: Request, a: MicroAction)
  {
    (!PyText.Truthy(req.priority) || PyText.Lower(a.priority) == PyText.Lower(req.priority.value))
    && (!PyText.Truthy(req.category) || PyText.Lower(a.category) == PyText.Lower(req.category.value))
  }

  /** The actions passing the filters, in order. */
  function Kept(req: Request, actions: seq<MicroAction>): (r: seq<MicroAction>)
    ensures |r| <= |actions|
    ensures forall k :: 0 <= k < |r| ==> Matches(req, r[k]) && r[k] in actions
    decreases |actions|
  {
    if actions == [] then []
    else
      var init := Kept(req, actions[..|actions| - 1]);
      var last := actions[|actions| - 1];
      assert forall a :: a in actions[..|actions| - 1] ==> a in actions;
      init + (if Matches(req, last) then [last] else [])
  }

  /** The target positions an action ends with: its own, else the department, else
   *  "All Positions". */
  function DefaultPositions(positions: seq<string>, department: Option<string>): (r: seq<string>)
    ensures r != []
    ensures positions != [] ==> r == positions
  {
    if positions != [] then positions
    else if PyText.Truthy(department) then [department.value]
    else ["All Positions"]
  }

  /** The `k`-th kept action after its metadata is added: `ids(k)` stands for the `k`-th
   *  `uuid4()` and `stamps(k)` for the `k`-th `datetime.now().isoformat()`. */
  function Stamped(req: Request, a: MicroAction, id: string, stamp: string): MicroAction
  {
    a.(id := Some(id), createdAt := Some(stamp), targetPositions := DefaultPositions(a.targetPositions, req.department))
  }

  function StampAll(req: Request, kept: seq<MicroAction>, ids: nat -> string, stamps: nat -> string): (r: seq<MicroAction>)
    ensures |r| == |kept|
  {
    seq(|kept|, k requires 0 <= k < |kept| => Stamped(req, kept[k], ids(k), stamps(k)))
  }

  /** How many actions the loop as written returns: it appends before it compares with the
   *  limit, so a limit of 0 or below still lets one action through. */
  function CountAsWritten(n: nat, limit: int): (r: nat)
    ensures r <= n
  {
    if n == 0 then 0 else if limit <= 0 then 1 else if n < limit then n else limit
  }

  /** How many actions the limit admits. */
  function CountWithin(n: nat, limit: int): (r: nat)
    ensures r <= n
  {
    if limit <= 0 then 0 else if n < limit then n else limit
  }

  /** The post-processed actions as written: the first kept ones, stamped, cut only after an
   *  append; they are the intended ones whenever the limit is at least 1, and one more action at
   *  most otherwise. */
  function ActionsAsWritten(req: Request, actions: seq<MicroAction>, ids: nat -> string, stamps: nat -> string): (r: seq<MicroAction>)
    ensures req.limit >= 1 ==> r == Actions(req, actions, ids, stamps)
    ensures |r| <= |Actions(req, actions, ids, stamps)| + 1
  {
    var kept := Kept(req, actions);
    StampAll(req, kept, ids, stamps)[..CountAsWritten(|kept|, req.limit)]
  }

  /** The post-processed actions: the first kept ones, stamped, at most `limit` of them. */
  function Actions(req: Request, actions: seq<MicroAction>, ids: nat -> string, stamps: nat -> string): (r: seq<MicroAction>)
    ensures |r| <= |Kept(req, actions)|
    ensures req.limit >= 0 ==> |r| <= req.limit
    ensures req.limit <= 0 ==> r == []
  {
    var kept := Kept(req, actions);
    StampAll(req, kept, ids, stamps)[..CountWithin(|kept|, req.limit)]
  }

  /** With a limit of 0 or below and an action passing the filters, the loop as written returns
   *  one action where the limit admits none. */
  lemma LimitBelowOneAsWritten(req: Request, actions: seq<MicroAction>, ids: nat -> string, stamps: nat -> string)
    requires req.limit <= 0
    requires exists a :: a in actions && Matches(req, a)
    ensures |ActionsAsWritten(req, actions, ids, stamps)| == 1
    ensures Actions(req, actions, ids, stamps) == []
  {
    var a :| a in actions && Matches(req, a);
    KeptHasMatch(req, actions, a);
  }

  lemma {:induction false} KeptHasMatch(req: Request, actions: seq<MicroAction>, a: MicroAction)
    requires a in actions && Matches(req, a)
    ensures Kept(req, actions) != []
    decreases |actions|
  {
    var init := actions[..|actions| - 1];
    if actions[|actions| - 1] != a {
      assert actions == init + [actions[|actions| - 1]];
      assert a in init;
      KeptHasMatch(req, init, a);
    }
  }

  /** Every returned action passes the filters and carries an id, a creation time and target
   *  positions (its own when it had some); there are at most `limit` of them, and they are the
   *  first actions passing the filters, in order. */
  lemma ActionsMeetRequest(req: Request, actions: seq<MicroAction>, ids: nat -> string, stamps: nat -> string)
    ensures var r := Actions(req, actions, ids, stamps);
      var kept := Kept(req, actions);
      |r| <= (if req.limit < 0 then 0 else req.limit)
      && |r| == (if |kept| < req.limit then |kept| else if req.limit < 0 then 0 else req.limit)
      && forall k :: 0 <= k < |r| ==>
        Matches(req, r[k]) && r[k].id == Some(ids(k)) && r[k].createdAt == Some(stamps(k))
        && r[k].targetPositions == DefaultPositions(kept[k].targetPositions, req.department)
        && r[k] == kept[k].(id := r[k].id, createdAt := r[k].createdAt, targetPositions := r[k].targetPositions)
  {
    var kept := Kept(req, actions);
    var r := Actions(req, actions, ids, stamps);
    forall k | 0 <= k < |r| ensures Matches(req, r[k]) {
      assert r[k] == Stamped(req, kept[k], ids(k), stamps(k));
      assert Matches(req, kept[k]);
    }
  }

  /** The actions kept from a prefix are a prefix of those kept from the whole list. */
  lemma {:induction false} KeptPrefix(req: Request, actions: seq<MicroAction>, i: nat)
    requires i <= |actions|
    ensures var p := Kept(req, actions[..i]);
      |p| <= |Kept(req, actions)| && p == Kept(req, actions)[..|p|]
    decreases |actions|
  {
    if i < |actions| {
      var init := actions[..|actions| - 1];
      assert init[..i] == actions[..i];
      KeptPrefix(req, init, i);
    } else {
      assert actions[..i] == actions;
    }
  }

  /** One more action: kept when it passes the filters. */
  lemma KeptStep(req: Request, actions: seq<MicroAction>, i: nat)
    requires i < |actions|
    ensures Kept(req, actions[..i + 1]) ==
      Kept(req, actions[..i]) + (if Matches(req, actions[i]) then [actions[i]] else [])
  {
    assert actions[..i + 1][..i] == actions[..i];
  }

  /** Stamping a prefix of the kept actions gives a prefix of the stamped list. */
  lemma StampAllPrefix(req: Request, p: seq<MicroAction>, kept: seq<MicroAction>, ids: nat -> string, stamps: nat -> string)
    requires |p| <= |kept| && p == kept[..|p|]
    ensures StampAll(req, p, ids, stamps) == StampAll(req, kept, ids, stamps)[..|p|]
  {
  }

  /** One pass of the loop: the action is appended, stamped with the next id and time, exactly
   *  when it passes the filters. */
  lemma AppendStep(req: Request, actions: seq<MicroAction>, ids: nat -> string, stamps: nat -> string,
                   i: nat, out: seq<MicroAction>)
    requires i < |actions|
    requires out == StampAll(req, Kept(req, actions[..i]), ids, stamps)
    ensures Matches(req, actions[i]) ==>
      out + [Stamped(req, actions[i], ids(|out|), stamps(|out|))] == StampAll(req, Kept(req, actions[..i + 1]), ids, stamps)
    ensures !Matches(req, actions[i]) ==> out == StampAll(req, Kept(req, actions[..i + 1]), ids, stamps)
  {
    KeptStep(req, actions, i);
  }

  /** Stopping after `i` actions leaves a prefix of the stamped kept actions. */
  lemma StopAfter(req: Request, actions: seq<MicroAction>, ids: nat -> string, stamps: nat -> string,
                  i: nat, out: seq<MicroAction>)
    requires i <= |actions|
    requires out == StampAll(req, Kept(req, actions[..i]), ids, stamps)
    ensures |out| <= |Kept(req, actions)|
    ensures out == StampAll(req, Kept(req, actions), ids, stamps)[..|out|]
  {
    KeptPrefix(req, actions, i);
    StampAllPrefix(req, Kept(req, actions[..i]), Kept(req, actions), ids, stamps);
  }

  /** Where the loop as written stops: the first append that reaches the limit, or the first at
   *  all when the limit is 0 or below. */
  lemma BreakAsWritten(req: Request, actions: seq<MicroAction>, ids: nat -> string, stamps: nat -> string,
                       i: nat, out: seq<MicroAction>)
    requires i <= |actions|
    requires out == StampAll(req, Kept(req, actions[..i]), ids, stamps)
    requires out != [] && |out| >= req.limit && (|out| == 1 || |out| - 1 < req.limit)
    ensures out == ActionsAsWritten(req, actions, ids, stamps)
  {
    StopAfter(req, actions, ids, stamps, i, out);
    assert CountAsWritten(|Kept(req, actions)|, req.limit) == |out|;
  }

  /** The post-processing loop as written: append, then stop once the limit is reached. */
  method PostProcessAsWritten(req: Request, actions: seq<MicroAction>, ids: nat -> string, stamps: nat -> string)
    returns (out: seq<MicroAction>)
    ensures out == ActionsAsWritten(req, actions, ids, stamps)
  {
    out := [];
    var i := 0;
    while i < |actions|
      invariant 0 <= i <= |actions|
      invariant out == StampAll(req, Kept(req, actions[..i]), ids, stamps)
      invariant out == [] || |out| < req.limit
    {
      var action := actions[i];
      AppendStep(req, actions, ids, stamps, i, out);
      if Matches(req, action) {
        out := out + [Stamped(req, action, ids(|out|), stamps(|out|))];
        if |out| >= req.limit {
          BreakAsWritten(req, actions, ids, stamps, i + 1, out);
          return;
        }
      }
      i := i + 1;
    }
    StopAfter(req, actions, ids, stamps, i, out);
    assert actions[..i] == actions;
  }

  /** The post-processing loop with the limit checked before each append. */
  method PostProcess(req: Request, actions: seq<MicroAction>, ids: nat -> string, stamps: nat -> string)
    returns (out: seq<MicroAction>)
    ensures out == Actions(req, actions, ids, stamps)
  {
    out := [];
    var i := 0;
    while i < |actions|
      invariant 0 <= i <= |actions|
      invariant out == StampAll(req, Kept(req, actions[..i]), ids, stamps)
      invariant out == [] || |out| <= req.limit
    {
      if |out| >= req.limit {
        StopAfter(req, actions, ids, stamps, i, out);
        return;
      }
      var action := actions[i];
      AppendStep(req, actions, ids, stamps, i, out);
      if Matches(req, action) {
        out := out + [Stamped(req, action, ids(|out|), stamps(|out|))];
      }
      i := i + 1;
    }
    StopAfter(req, actions, ids, stamps, i, out);
    assert actions[..i] == actions;
  }

  // ---------------------------------------------------------------- generate_micro_actions_with_llama

  /** The route's answer: success with the actions, or failure with the message and no data. */
  datatype Response = Response(success: bool, error: Option<string>, data: seq<MicroAction>)

  /** The actions of the reply before post-processing: `reply` is the model's message (or the
   *  exception of the call), `loads` stands for `json.loads` and `validate` for
   *  `MicroActionsOutput(**...)`. */
  function DecodedActions<J>(reply: Outcome<string>, loads: string -> Outcome<J>,
                             validate: J -> Outcome<seq<MicroAction>>): Outcome<seq<MicroAction>>
  {
    match reply
    case Raised(m) => Raised(m)
    case Done(text) =>
      match CleanLlmJson(PyText.Strip(text), loads)
      case Raised(m) => Raised(m)
      case Done(j) => validate(j)
  }

  /** The message of the `NameError` raised by the call of `get_risk_summary`, a name
   *  `recommendation_agent.py` neither defines nor imports. */
  const UndefinedRiskSummary := "name 'get_risk_summary' is not defined"

  /** `generate_micro_actions_with_llama` as written. A truthy department first builds the
   *  enriched context, whose first step calls `get_risk_summary`; the `NameError` is raised
   *  before the `try` and escapes the function. Without a department, any exception of the call
   *  or the decoding gives a failure with its message and an empty list, and a success carries
   *  no message. */
  function GenerateMicroActions<J>(req: Request, reply: Outcome<string>, loads: string -> Outcome<J>,
                                   validate: J -> Outcome<seq<MicroAction>>,
                                   ids: nat -> string, stamps: nat -> string): (r: Outcome<Response>)
    ensures r.Raised? <==> PyText.Truthy(req.department)
    ensures r.Raised? ==> r.message == UndefinedRiskSummary
    ensures r.Done? ==> (!r.value.success <==> r.value.error.Some?) && (!r.value.success ==> r.value.data == [])
  {
    if PyText.Truthy(req.department) then Raised(UndefinedRiskSummary)
    else
      match DecodedActions(reply, loads, validate)
      case Raised(m) => Done(Response(false, Some(m), []))
      case Done(actions) => Done(Response(true, None, ActionsAsWritten(req, actions, ids, stamps)))
  }

  /** `generate_micro_actions_with_llama` as intended: `get_risk_summary` imported (it is defined
   *  in `risk_engine.py`), so a department-scoped request is answered, and the limit checked
   *  before each append. Without a department it has the same success and message as written,
   *  and the same answer whenever the limit is at least 1; it never returns more actions than a
   *  non-negative limit. */
  function GenerateMicroActionsCorrected<J>(req: Request, reply: Outcome<string>, loads: string -> Outcome<J>,
                                            validate: J -> Outcome<seq<MicroAction>>,
                                            ids: nat -> string, stamps: nat -> string): (r: Response)
    ensures !r.success <==> r.error.Some?
    ensures r.success <==> DecodedActions(reply, loads, validate).Done?
    ensures !PyText.Truthy(req.department) ==>
      var w := GenerateMicroActions(req, reply, loads, validate, ids, stamps);
      w.Done? && r.success == w.value.success && r.error == w.value.error
      && (req.limit >= 1 ==> r == w.value)
    ensures req.limit >= 0 ==> |r.data| <= req.limit
    ensures req.limit <= 0 ==> r.data == []
  {
    match DecodedActions(reply, loads, validate)
    case Raised(m) => Response(false, Some(m), [])
    case Done(actions) => Response(true, None, Actions(req, actions, ids, stamps))
  }

  /** As written every department-scoped request raises, whatever the model replies; as
   *  intended it is answered, and an action without target positions gets the department. */
  lemma DepartmentRequestRaises<J>(req: Request, reply: Outcome<string>, loads: string -> Outcome<J>,
                                   validate: J -> Outcome<seq<MicroAction>>, ids: nat -> string, stamps: nat -> string)
    requires PyText.Truthy(req.department)
    ensures GenerateMicroActions(req, reply, loads, validate, ids, stamps) == Raised(UndefinedRiskSummary)
    ensures var c := GenerateMicroActionsCorrected(req, reply, loads, validate, ids, stamps);
      c.success <==> DecodedActions(reply, loads, validate).Done?
    ensures DefaultPositions([], req.department) == [req.department.value]
  {
  }

  /** A failure at any step answers success False, its message and an empty list; a success
   *  answers the post-processed actions of the decoded reply. */
  lemma GenerateCases<J>(req: Request, reply: Outcome<string>, loads: string -> Outcome<J>,
                         validate: J -> Outcome<seq<MicroAction>>, ids: nat -> string, stamps: nat -> string)
    ensures var o := GenerateMicroActions(req, reply, loads, validate, ids, stamps);
      o.Done? ==>
      var r := o.value;
      (!r.success <==> r.error.Some?) && (!r.success ==> r.data == [])
      && (reply.Raised? ==> !r.success && r.error == Some(reply.message))
      && (reply.Done? && loads(CleanedText(PyText.Strip(reply.value))).Raised? ==>
            !r.success && r.error.value == "Failed to clean/parse JSON: " + loads(CleanedText(PyText.Strip(reply.value))).message)
      && (r.success ==> exists actions :: r.data == ActionsAsWritten(req, actions, ids, stamps))
  {
    var o := GenerateMicroActions(req, reply, loads, validate, ids, stamps);
    if o.Done? && o.value.success {
      var actions := DecodedActions(reply, loads, validate).value;
      assert o.value.data == ActionsAsWritten(req, actions, ids, stamps);
    }
  }
}
