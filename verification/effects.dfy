/*******************************************************************************
 *  Observable effects of the front end: HTTP requests sent through the shared
 *  API client, toast notifications, navigation and callbacks handed to a
 *  parent component. A handler is modelled as a function from its inputs
 *  (including the outcome of every request it awaits) to the sequence of
 *  effects it produces, in order.
 *******************************************************************************/

module Effects {
  import opened Js

  datatype HttpMethod = Get | Post

  /** One call of the API client: `api.get(url, {params})` or
      `api.post(url, body, {params})`. `body` is `JNull` for a GET; a
      multipart upload carries its form fields as a JSON object. */
  datatype Request = Request(verb: HttpMethod, url: string, body: Json, params: map<string, Json>)

  function GetRequest(url: string, params: map<string, Json>): Request {
    Request(Get, url, JNull, params)
  }

  function PostRequest(url: string, body: Json, params: map<string, Json>): Request {
    Request(Post, url, body, params)
  }

  datatype ToastLevel = Success | Warning | Error

  datatype Effect =
    | Send(request: Request)
    | Toast(level: ToastLevel, text: string)
    | Navigate(path: string)
    | Callback(arg: Json)

  /** The requests of an effect log, in the order they were sent. */
  function Requests(log: seq<Effect>): (r: seq<Request>)
    ensures |r| <= |log|
    ensures forall q :: q in r <==> Send(q) in log
  {
    if log == [] then []
    else (if log[0].Send? then [log[0].request] else []) + Requests(log[1..])
  }

  /** The number of POST requests in a log. */
  function PostCount(log: seq<Effect>): nat {
    if log == [] then 0
    else (if log[0].Send? && log[0].request.verb == Post then 1 else 0) + PostCount(log[1..])
  }

  function ToastLevels(log: seq<Effect>): seq<ToastLevel> {
    if log == [] then []
    else (if log[0].Toast? then [log[0].level] else []) + ToastLevels(log[1..])
  }

  /** The arguments of the callbacks invoked, in order. */
  function Callbacks(log: seq<Effect>): seq<Json> {
    if log == [] then []
    else (if log[0].Callback? then [log[0].arg] else []) + Callbacks(log[1..])
  }

  /** The logs of a single effect. */
  lemma LogOfOne(e: Effect)
    ensures Requests([e]) == (if e.Send? then [e.request] else [])
    ensures PostCount([e]) == (if e.Send? && e.request.verb == Post then 1 else 0)
    ensures ToastLevels([e]) == (if e.Toast? then [e.level] else [])
    ensures Callbacks([e]) == (if e.Callback? then [e.arg] else [])
  {
    assert [e][1..] == [];
  }

  /** The requests of two logs run one after the other. */
  lemma {:induction false} RequestsOfConcat(a: seq<Effect>, b: seq<Effect>)
    ensures Requests(a + b) == Requests(a) + Requests(b)
    decreases |a|
  {
    if a == [] {
      assert a + b == b;
    } else {
      assert (a + b)[0] == a[0];
      assert (a + b)[1..] == a[1..] + b;
      RequestsOfConcat(a[1..], b);
    }
  }

  /** The POSTs of two logs run one after the other. */
  lemma {:induction false} PostCountOfConcat(a: seq<Effect>, b: seq<Effect>)
    ensures PostCount(a + b) == PostCount(a) + PostCount(b)
    decreases |a|
  {
    if a == [] {
      assert a + b == b;
    } else {
      assert (a + b)[0] == a[0];
      assert (a + b)[1..] == a[1..] + b;
      PostCountOfConcat(a[1..], b);
    }
  }

  /** The toasts of two logs run one after the other. */
  lemma {:induction false} ToastLevelsOfConcat(a: seq<Effect>, b: seq<Effect>)
    ensures ToastLevels(a + b) == ToastLevels(a) + ToastLevels(b)
    decreases |a|
  {
    if a == [] {
      assert a + b == b;
    } else {
      assert (a + b)[0] == a[0];
      assert (a + b)[1..] == a[1..] + b;
      ToastLevelsOfConcat(a[1..], b);
    }
  }

  /** The callbacks of two logs run one after the other. */
  lemma {:induction false} CallbacksOfConcat(a: seq<Effect>, b: seq<Effect>)
    ensures Callbacks(a + b) == Callbacks(a) + Callbacks(b)
    decreases |a|
  {
    if a == [] {
      assert a + b == b;
    } else {
      assert (a + b)[0] == a[0];
      assert (a + b)[1..] == a[1..] + b;
      CallbacksOfConcat(a[1..], b);
    }
  }

  /** The logs of a two-effect handler, read off effect by effect. */
  lemma LogOfTwo(e0: Effect, e1: Effect)
    ensures Requests([e0, e1]) == Requests([e0]) + Requests([e1])
    ensures PostCount([e0, e1]) == PostCount([e0]) + PostCount([e1])
    ensures ToastLevels([e0, e1]) == ToastLevels([e0]) + ToastLevels([e1])
    ensures Callbacks([e0, e1]) == Callbacks([e0]) + Callbacks([e1])
  {
    assert [e0, e1] == [e0] + [e1];
    RequestsOfConcat([e0], [e1]);
    PostCountOfConcat([e0], [e1]);
    ToastLevelsOfConcat([e0], [e1]);
    CallbacksOfConcat([e0], [e1]);
  }

  /** The logs of a three-effect handler, read off effect by effect. */
  lemma LogOfThree(e0: Effect, e1: Effect, e2: Effect)
    ensures Requests([e0, e1, e2]) == Requests([e0]) + Requests([e1]) + Requests([e2])
    ensures PostCount([e0, e1, e2]) == PostCount([e0]) + PostCount([e1]) + PostCount([e2])
    ensures ToastLevels([e0, e1, e2]) == ToastLevels([e0]) + ToastLevels([e1]) + ToastLevels([e2])
    ensures Callbacks([e0, e1, e2]) == Callbacks([e0]) + Callbacks([e1]) + Callbacks([e2])
  {
    assert [e0, e1, e2] == [e0] + [e1] + [e2];
    LogOfTwo(e0, e1);
    RequestsOfConcat([e0] + [e1], [e2]);
    PostCountOfConcat([e0] + [e1], [e2]);
    ToastLevelsOfConcat([e0] + [e1], [e2]);
    CallbacksOfConcat([e0] + [e1], [e2]);
  }
}
