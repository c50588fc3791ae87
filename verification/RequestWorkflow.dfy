/**
 The response side of a request: a workflow of headers, body and finish that only moves forward, and what it guarantees
 about the headers that reach the client.
 */
module RequestWorkflow {
  import opened Common
  import opened Routes

  datatype Stage = NONE | HEADERS | BODY | FINISHED

  function Rank(s: Stage): nat { match s case NONE => 0 case HEADERS => 1 case BODY => 2 case FINISHED => 3 }

  type Header = (string, string)

  /** What the output system is asked to do, in order. */
  datatype Output = WroteHeaders(status: int, headers: seq<Header>) | BodyAccess | Finished

  function NameOf(m: Method): string {
    match m case GET => "GET" case POST => "POST" case PUT => "PUT" case HEAD => "HEAD" case OPTIONS => "OPTIONS"
  }

  function ListName(m: Method, methods: set<Method>, rest: seq<string>): seq<string> {
    if m in methods then [NameOf(m)] + rest else rest
  }

  function CommaJoined(names: seq<string>): string {
    if names == [] then "" else if |names| == 1 then names[0] else names[0] + ", " + CommaJoined(names[1..])
  }

  function ListMethods(methods: set<Method>): string {
    CommaJoined(ListName(GET, methods, ListName(POST, methods, ListName(PUT, methods,
                ListName(HEAD, methods, ListName(OPTIONS, methods, []))))))
  }

  /** The CORS headers, present when the client sent an origin. */
  function DefaultHeaders(origin: Option<string>, methods: set<Method>): seq<Header> {
    if origin.None? then []
    else
      [("Access-Control-Allow-Credentials", "true"),
       ("Access-Control-Allow-Methods", ListMethods(methods)),
       ("Access-Control-Allow-Origin", origin.value),
       ("Access-Control-Max-Age", "1728000")]
  }

  const DEFAULT_METHODS: set<Method> := {GET, HEAD, OPTIONS}

  /** A name with the separator before it, where its method is in the set. */
  function Listed(m: Method, name: string, methods: set<Method>): string { if m in methods then ", " + name else "" }

  function Preceded(names: seq<string>): string { if names == [] then "" else ", " + CommaJoined(names) }

  lemma {:induction false} Reassociate(a: string, b: string, c: string)
    ensures a + b + c == a + (b + c)
  {
  }

  lemma {:induction false} CommaJoinedNext(name: string, rest: seq<string>)
    ensures CommaJoined([name] + rest) == name + Preceded(rest)
  {
    if rest == [] {
      assert [name] + rest == [name];
      assert name + "" == name;
    } else {
      assert ([name] + rest)[1..] == rest;
      Reassociate(name, ", ", CommaJoined(rest));
    }
  }

  lemma {:induction false} PrecededNext(m: Method, methods: set<Method>, rest: seq<string>)
    ensures Preceded(ListName(m, methods, rest)) == Listed(m, NameOf(m), methods) + Preceded(rest)
    ensures m in methods || rest != [] ==> ListName(m, methods, rest) != []
  {
    var name := NameOf(m);
    if m in methods {
      CommaJoinedNext(name, rest);
      Reassociate(", ", name, Preceded(rest));
    } else {
      assert "" + Preceded(rest) == Preceded(rest);
    }
  }

  /** The list names each method of the set once, in a fixed order, with a comma and a space between two of them. */
  lemma {:induction false} MethodsListed(methods: set<Method>)
    ensures methods == {} ==> ListMethods(methods) == ""
    ensures methods != {} ==>
      ", " + ListMethods(methods) ==
        Listed(GET, "GET", methods) + (Listed(POST, "POST", methods) + (Listed(PUT, "PUT", methods)
        + (Listed(HEAD, "HEAD", methods) + Listed(OPTIONS, "OPTIONS", methods))))
  {
    var options := ListName(OPTIONS, methods, []);
    var head := ListName(HEAD, methods, options);
    var put := ListName(PUT, methods, head);
    var post := ListName(POST, methods, put);
    PrecededNext(OPTIONS, methods, []);
    PrecededNext(HEAD, methods, options);
    PrecededNext(PUT, methods, head);
    PrecededNext(POST, methods, put);
    PrecededNext(GET, methods, post);
    assert Listed(OPTIONS, "OPTIONS", methods) + "" == Listed(OPTIONS, "OPTIONS", methods);
    if m :| m in methods {
      assert ListName(GET, methods, post) != [] by {
        assert m == GET || m == POST || m == PUT || m == HEAD || m == OPTIONS;
      }
    }
  }

  // ---------- State and steps ----------

  datatype State = State(stage: Stage, status: int, headers: seq<Header>, successHeaders: seq<Header>,
                         methods: set<Method>, output: seq<Output>)

  const BLANK := State(NONE, 500, [], [], DEFAULT_METHODS, [])

  function EnterHeaders(s: State, origin: Option<string>): State {
    if s.stage == NONE then s.(stage := HEADERS, headers := s.headers + DefaultHeaders(origin, s.methods)) else s
  }

  function EnterBody(s: State): State {
    s.(stage := BODY,
       output := s.output + [WroteHeaders(s.status, s.headers + if s.status == 200 then s.successHeaders else [])])
  }

  /** The effect of `check_workflow`; `None` is the exception. */
  function Advance(s: State, origin: Option<string>, target: Stage): Option<State> {
    if Rank(s.stage) > Rank(target) then None
    else if s.stage == target then Some(s)
    else
      var h := EnterHeaders(s, origin);
      var b := if Rank(h.stage) < 2 <= Rank(target) then EnterBody(h) else h;
      Some(b.(stage := target))
  }

  datatype Call =
    | SetStatus(code: int)
    | AddHeader(header: Header)
    | AddSuccessHeader(header: Header)
    | SetMethods(methods: set<Method>)
    | GetBuffer
    | Finish

  /** A call, where a call that throws leaves the state as it was. */
  function Step(s: State, origin: Option<string>, c: Call): State {
    match c
    case SetMethods(m) => s.(methods := m)
    case SetStatus(code) =>
      var a := Advance(s, origin, HEADERS);
      if a.None? then s else a.value.(status := code)
    case AddHeader(h) =>
      var a := Advance(s, origin, HEADERS);
      if a.None? then s else a.value.(headers := a.value.headers + [h])
    case AddSuccessHeader(h) =>
      var a := Advance(s, origin, HEADERS);
      if a.None? then s else a.value.(successHeaders := a.value.successHeaders + [h])
    case GetBuffer =>
      var a := Advance(s, origin, BODY);
      if a.None? then s else a.value.(output := a.value.output + [BodyAccess])
    case Finish =>
      var a := Advance(s, origin, FINISHED);
      if a.None? then s else a.value.(output := a.value.output + [Finished])
  }

  /** Whether a call throws: it belongs to a stage that is already behind. */
  predicate Throws(s: State, c: Call) {
    match c
    case SetMethods(_) => false
    case SetStatus(_) | AddHeader(_) | AddSuccessHeader(_) => Rank(s.stage) > 1
    case GetBuffer => Rank(s.stage) > 2
    case Finish => false
  }

  class Request {
    const origin: Option<string>
    var workflowStatus: Stage
    var httpStatus: int
    var headers: seq<Header>
    var successHeaders: seq<Header>
    var allowedMethods: set<Method>
    var output: seq<Output>

    function Current(): State
      reads this
    {
      State(workflowStatus, httpStatus, headers, successHeaders, allowedMethods, output)
    }

    constructor (origin: Option<string>)
      ensures this.origin == origin && Current() == BLANK
    {
      this.origin := origin;
      workflowStatus, httpStatus, headers, successHeaders, allowedMethods, output :=
        NONE, 500, [], [], DEFAULT_METHODS, [];
    }

    /** The recursion through the default headers ends because the stage has left NONE before they are added. */
    method CheckWorkflow(thisStage: Stage) returns (o: Outcome)
      modifies this
      ensures match Advance(old(Current()), origin, thisStage)
        case None => o.Fail? && Current() == old(Current())
        case Some(next) => o.Pass? && Current() == next
      decreases if workflowStatus == NONE then 1 else 0, 0
    {
      if Rank(workflowStatus) < Rank(thisStage) {
        if workflowStatus == NONE {
          workflowStatus := HEADERS;
          SetDefaultHeaders();
        }
        if Rank(workflowStatus) < 2 <= Rank(thisStage) {
          workflowStatus := BODY;
          var all := headers;
          if httpStatus == 200 {
            all := all + successHeaders;
          }
          assert headers + [] == headers;
          WriteHeaderInfo(httpStatus, all);
        }
        workflowStatus := thisStage;
      } else if Rank(workflowStatus) > Rank(thisStage) {
        return Fail(ServerError);
      }
      return Pass;
    }

    method SetDefaultHeaders()
      requires workflowStatus == HEADERS
      modifies this
      ensures Current() == old(Current()).(headers := old(headers) + DefaultHeaders(origin, allowedMethods))
      decreases 0, 2
    {
      if origin.Some? {
        var o := AddHeader("Access-Control-Allow-Credentials", "true");
        o := AddHeader("Access-Control-Allow-Methods", ListMethods(allowedMethods));
        o := AddHeader("Access-Control-Allow-Origin", origin.value);
        o := AddHeader("Access-Control-Max-Age", "1728000");
      }
    }

    method AddHeader(key: string, value: string) returns (o: Outcome)
      modifies this
      ensures Current() == Step(old(Current()), origin, Call.AddHeader((key, value)))
      ensures o.Fail? <==> Throws(old(Current()), Call.AddHeader((key, value)))
      decreases if workflowStatus == NONE then 1 else 0, 1
    {
      o := CheckWorkflow(HEADERS);
      if o.Pass? {
        headers := headers + [(key, value)];
      }
    }

    method AddSuccessHeader(key: string, value: string) returns (o: Outcome)
      modifies this
      ensures Current() == Step(old(Current()), origin, Call.AddSuccessHeader((key, value)))
      ensures o.Fail? <==> Throws(old(Current()), Call.AddSuccessHeader((key, value)))
    {
      o := CheckWorkflow(HEADERS);
      if o.Pass? {
        successHeaders := successHeaders + [(key, value)];
      }
    }

    method Status(code: int) returns (o: Outcome)
      modifies this
      ensures Current() == Step(old(Current()), origin, SetStatus(code))
      ensures o.Fail? <==> Throws(old(Current()), SetStatus(code))
    {
      o := CheckWorkflow(HEADERS);
      if o.Pass? {
        httpStatus := code;
      }
    }

    method GetBuffer() returns (o: Outcome)
      modifies this
      ensures Current() == Step(old(Current()), origin, Call.GetBuffer)
      ensures o.Fail? <==> Throws(old(Current()), Call.GetBuffer)
    {
      o := CheckWorkflow(BODY);
      if o.Pass? {
        output := output + [BodyAccess];
      }
    }

    method Finish()
      modifies this
      ensures Current() == Step(old(Current()), origin, Call.Finish)
    {
      var o := CheckWorkflow(FINISHED);
      if o.Pass? {
        output := output + [Finished];
      }
    }

    method SetDefaultMethods(m: set<Method>)
      modifies `allowedMethods
      ensures Current() == Step(old(Current()), origin, SetMethods(m))
    {
      allowedMethods := m;
    }

    method WriteHeaderInfo(status: int, all: seq<Header>)
      modifies `output
      ensures output == old(output) + [WroteHeaders(status, all)]
    {
      output := output + [WroteHeaders(status, all)];
    }

    method Reset()
      modifies this
      ensures Current() == BLANK.(output := old(output))
    {
      workflowStatus := NONE;
      httpStatus := 500;
      headers := [];
      successHeaders := [];
      allowedMethods := DEFAULT_METHODS;
    }
  }

  // ---------- Call sequences ----------

  function Run(origin: Option<string>, calls: seq<Call>): State {
    if calls == [] then BLANK else Step(Run(origin, calls[..|calls| - 1]), origin, calls[|calls| - 1])
  }

  /** Calls that need the headers to be out. */
  predicate IsOutput(c: Call) { c.GetBuffer? || c.Finish? }

  /** Calls that touch the headers. */
  predicate IsHeaderCall(c: Call) { c.SetStatus? || c.AddHeader? || c.AddSuccessHeader? }

  function LastStatus(calls: seq<Call>): int {
    if calls == [] then 500
    else if calls[|calls| - 1].SetStatus? then calls[|calls| - 1].code
    else LastStatus(calls[..|calls| - 1])
  }

  function Added(calls: seq<Call>): seq<Header> {
    if calls == [] then []
    else Added(calls[..|calls| - 1]) + if calls[|calls| - 1].AddHeader? then [calls[|calls| - 1].header] else []
  }

  function AddedForSuccess(calls: seq<Call>): seq<Header> {
    if calls == [] then []
    else
      AddedForSuccess(calls[..|calls| - 1])
      + if calls[|calls| - 1].AddSuccessHeader? then [calls[|calls| - 1].header] else []
  }

  predicate AnyHeaderCall(calls: seq<Call>) {
    calls != [] && (AnyHeaderCall(calls[..|calls| - 1]) || IsHeaderCall(calls[|calls| - 1]))
  }

  function LastMethods(calls: seq<Call>): set<Method> {
    if calls == [] then DEFAULT_METHODS
    else if calls[|calls| - 1].SetMethods? then calls[|calls| - 1].methods
    else LastMethods(calls[..|calls| - 1])
  }

  /** The methods announced in the default headers: those in force when the first header call was made. */
  function AnnouncedMethods(calls: seq<Call>): set<Method> {
    if calls == [] || !AnyHeaderCall(calls[..|calls| - 1]) then LastMethods(calls)
    else AnnouncedMethods(calls[..|calls| - 1])
  }

  /** The headers that a response must have after `calls`, if the next call needs them out. */
  function ExpectedHeaders(origin: Option<string>, calls: seq<Call>): Output {
    WroteHeaders(LastStatus(calls),
                 DefaultHeaders(origin, AnnouncedMethods(calls)) + Added(calls)
                 + if LastStatus(calls) == 200 then AddedForSuccess(calls) else [])
  }

  predicate NoOutput(calls: seq<Call>) { forall i :: 0 <= i < |calls| ==> !IsOutput(calls[i]) }

  lemma {:induction false} NothingAddedYet(calls: seq<Call>)
    requires !AnyHeaderCall(calls)
    ensures AnnouncedMethods(calls) == LastMethods(calls) && Added(calls) == [] && AddedForSuccess(calls) == []
    decreases |calls|
  {
    if calls != [] {
      NothingAddedYet(calls[..|calls| - 1]);
    }
  }

  /** The headers so far: none before the first header call. */
  function HeadersSoFar(origin: Option<string>, calls: seq<Call>): seq<Header> {
    (if AnyHeaderCall(calls) then DefaultHeaders(origin, AnnouncedMethods(calls)) else []) + Added(calls)
  }

  function Described(origin: Option<string>, calls: seq<Call>): State {
    State(if AnyHeaderCall(calls) then HEADERS else NONE, LastStatus(calls), HeadersSoFar(origin, calls),
          AddedForSuccess(calls), LastMethods(calls), [])
  }

  lemma {:induction false} HeadersGrow(origin: Option<string>, calls: seq<Call>)
    requires calls != []
    ensures var before, c := calls[..|calls| - 1], calls[|calls| - 1];
      HeadersSoFar(origin, calls) ==
        HeadersSoFar(origin, before)
        + (if IsHeaderCall(c) && !AnyHeaderCall(before) then DefaultHeaders(origin, LastMethods(before)) else [])
        + (if c.AddHeader? then [c.header] else [])
  {
    var before := calls[..|calls| - 1];
    if !AnyHeaderCall(before) {
      NothingAddedYet(before);
    }
  }

  /** Before the first output call, the state is what the calls say and nothing has been written. */
  lemma {:induction false} BeforeOutput(origin: Option<string>, calls: seq<Call>)
    requires NoOutput(calls)
    ensures Run(origin, calls) == Described(origin, calls)
    decreases |calls|
  {
    if calls != [] {
      BeforeOutput(origin, calls[..|calls| - 1]);
      HeadersGrow(origin, calls);
    }
  }

  predicate NoHeadersIn(output: seq<Output>) { forall i :: 0 <= i < |output| ==> !output[i].WroteHeaders? }

  /** A call once the headers are out: they stay first and alone, whatever is called. */
  lemma {:induction false} StepKeepsHeadersFirst(origin: Option<string>, s: State, c: Call)
    requires Rank(s.stage) >= 2 && s.output != [] && NoHeadersIn(s.output[1..])
    ensures var t := Step(s, origin, c);
      Rank(t.stage) >= Rank(s.stage) && t.output != [] && t.output[0] == s.output[0] && NoHeadersIn(t.output[1..])
  {
    var t := Step(s, origin, c);
    if t.output != s.output {
      assert t.output[1..] == s.output[1..] + [t.output[|t.output| - 1]];
    }
  }

  /**
   For every sequence of calls after a reset whose first output call stands at `first`: the headers are written exactly
   once, before any body access and before finishing, and they are the default headers, then the added headers in call
   order, then the success headers if and only if the last status was 200.
   */
  lemma {:induction false} HeadersWrittenOnce(origin: Option<string>, calls: seq<Call>, first: nat)
    requires first < |calls| && NoOutput(calls[..first]) && IsOutput(calls[first])
    ensures var out := Run(origin, calls).output;
      && Rank(Run(origin, calls).stage) >= 2
      && out != [] && NoHeadersIn(out[1..])
      && var before := calls[..first];
      out[0] == WroteHeaders(LastStatus(before),
                             (if origin.None? then []
                              else [("Access-Control-Allow-Credentials", "true"),
                                    ("Access-Control-Allow-Methods", ListMethods(AnnouncedMethods(before))),
                                    ("Access-Control-Allow-Origin", origin.value),
                                    ("Access-Control-Max-Age", "1728000")])
                             + Added(before) + if LastStatus(before) == 200 then AddedForSuccess(before) else [])
    decreases |calls|
  {
    var before := calls[..|calls| - 1];
    if first == |calls| - 1 {
      BeforeOutput(origin, before);
      FirstOutput(origin, before, calls[first]);
    } else {
      assert before[..first] == calls[..first];
      HeadersWrittenOnce(origin, before, first);
      StepKeepsHeadersFirst(origin, Run(origin, before), calls[|calls| - 1]);
    }
  }

  lemma {:induction false} FirstOutput(origin: Option<string>, before: seq<Call>, c: Call)
    requires NoOutput(before) && IsOutput(c)
    ensures Step(Run(origin, before), origin, c).output ==
      [ExpectedHeaders(origin, before), if c.GetBuffer? then BodyAccess else Finished]
    ensures Rank(Step(Run(origin, before), origin, c).stage) >= 2
  {
    BeforeOutput(origin, before);
    if !AnyHeaderCall(before) {
      NothingAddedYet(before);
    }
    var s := Run(origin, before);
    var h := EnterHeaders(s, origin);
    assert h.headers == DefaultHeaders(origin, AnnouncedMethods(before)) + Added(before);
  }
}
