/** The HTTP connector's decisions (`HTTPConnector`): which printers it
    takes, the `/connect` request with its token-expiry retry, the approval
    polling on `/status`, the token-gated `/disconnect`, the request timeout
    and the API address. The HTTP client is a scripted transport: each
    request takes the next scripted reply, and an exhausted script answers
    with a transport error (as a timed-out request would). */
module HttpConnector {
  import opened Wrappers
  import opened Machines
  import opened Printers

  const HttpPort := "8080"
  const HttpTimeout := 5

  /** The number of retries the `/connect` request allows. */
  const RetryCount := 3

  /** `request(timeout...)`: the timeout in seconds of a request, the one
      passed or the default. */
  function Timeout(args: seq<int>): (t: int)
    ensures |args| == 0 ==> t == HttpTimeout
    ensures |args| > 0 ==> t == args[0]
  {
    if |args| > 0 then args[0] else HttpTimeout
  }

  datatype Verb = Get | Post

  /** A request as sent: its verb, address, the token in its form data and
      query, and its timeout. */
  datatype Request = Request(verb: Verb, url: string, token: string, timeout: int)

  /** What a request got back: a status code with the token decoded from its
      body (empty when it has none), a status code with a body that is not
      the JSON result the request asks for, or a transport error. */
  datatype Reply = Response(status: int, token: string) | Undecodable(status: int) | TransportError

  /** The status codes the HTTP client treats as success: the ones whose
      body it decodes into the result set with `SetSuccessResult`. */
  predicate Success(status: int)
  {
    200 <= status < 300
  }

  datatype ConnectError = TransportFailed | DecodeFailed | ConnectStatus(code: int) | AccessDenied

  /** The error the HTTP client returns for a request that decodes its
      success body into a result, as the `/connect` post does: a transport
      error, or a success status whose body does not decode. */
  function ResultError(reply: Reply): (e: Option<ConnectError>)
    ensures e == Some(TransportFailed) <==> reply.TransportError?
    ensures e == Some(DecodeFailed) <==> reply.Undecodable? && Success(reply.status)
    ensures e.None? <==> reply.Response? || (reply.Undecodable? && !Success(reply.status))
  {
    match reply
    case TransportError => Some(TransportFailed)
    case Undecodable(status) => if Success(status) then Some(DecodeFailed) else None
    case Response(_, _) => None
  }

  /** The next reply of a script. */
  function Head(rs: seq<Reply>): Reply
  {
    if rs == [] then TransportError else rs[0]
  }

  /** The script after one request. */
  function Tail(rs: seq<Reply>): seq<Reply>
  {
    if rs == [] then [] else rs[1..]
  }

  /** The script after `n` requests. */
  function Drop(rs: seq<Reply>, n: nat): seq<Reply>
  {
    if n <= |rs| then rs[n..] else []
  }

  /** `n` copies of the same request. */
  function Copies(r: Request, n: nat): (rs: seq<Request>)
    ensures |rs| == n && forall k | 0 <= k < n :: rs[k] == r
  {
    if n == 0 then [] else Copies(r, n - 1) + [r]
  }

  class Transport {
    var replies: seq<Reply>
    var sent: seq<Request>
    var reachable: set<string>
    var dialed: seq<string>

    constructor (script: seq<Reply>, up: set<string>)
      ensures replies == script && sent == [] && reachable == up && dialed == []
    {
      replies, sent, reachable, dialed := script, [], up, [];
    }

    /** Sends one request and takes the next scripted reply. */
    method Exchange(r: Request) returns (reply: Reply)
      modifies this
      ensures reply == Head(old(replies)) && replies == Tail(old(replies))
      ensures sent == old(sent) + [r]
      ensures reachable == old(reachable) && dialed == old(dialed)
    {
      sent := sent + [r];
      if replies == [] {
        reply := TransportError;
      } else {
        reply := replies[0];
        replies := replies[1..];
      }
    }

    /** `ping(ip, "8080", 3)`: a TCP probe of the printer's HTTP port. */
    method Dial(ip: string) returns (ok: bool)
      modifies this
      ensures ok == (ip in reachable) && dialed == old(dialed) + [ip]
      ensures replies == old(replies) && sent == old(sent) && reachable == old(reachable)
    {
      dialed := dialed + [ip];
      ok := ip in reachable;
    }
  }

  datatype AuthStatus = Approved | Denied | Waiting

  /** `checkStatus`'s classification of the `/status` reply. */
  function Classify(reply: Reply): (s: AuthStatus)
    ensures s == Approved <==> !reply.TransportError? && reply.status == 200
    ensures s == Waiting <==> !reply.TransportError? && reply.status == 204
  {
    if reply.TransportError? then Denied
    else if reply.status == 200 then Approved
    else if reply.status == 204 then Waiting
    else Denied
  }

  /** The retry condition: a 403 while the printer still holds a token. */
  predicate Expired(reply: Reply, token: string)
  {
    !reply.TransportError? && reply.status == 403 && token != ""
  }

  /** The `/connect` request with its retries: the reply it ends with, the
      printer's token afterwards, and how many times it was posted. */
  datatype Posting = Posting(reply: Reply, token: string, posts: nat)

  /** Since the retry condition clears the token it tests, at most one retry
      happens: only when the first reply says the token expired. */
  function Posted(token: string, rs: seq<Reply>): Posting
  {
    if Expired(Head(rs), token) then Posting(Head(Tail(rs)), "", 2) else Posting(Head(rs), token, 1)
  }

  /** The retry condition as written (connector_http.go:55-67) tests the
      status code without looking at the error first. After a transport
      error the HTTP client still consults it, with a response that holds no
      underlying `*http.Response`, so reading the status code dereferences
      nil and panics; `None` stands for that panic. */
  function RetryAsWritten(reply: Reply, token: string): Option<bool>
  {
    if reply.TransportError? then None else Some(reply.status == 403 && token != "")
  }

  /** The `/connect` post with the condition as written: the condition is
      consulted after each of the (at most two) attempts, the retry count
      being 3, and `None` is the panic. */
  function PostedAsWritten(token: string, rs: seq<Reply>): Option<Posting>
  {
    match RetryAsWritten(Head(rs), token)
    case None => None
    case Some(false) => Some(Posting(Head(rs), token, 1))
    case Some(true) =>
      if RetryAsWritten(Head(Tail(rs)), "").None? then None else Some(Posting(Head(Tail(rs)), "", 2))
  }

  /** The condition as written panics exactly where the corrected one
      (`Posted`, which checks for a response first) ends with a transport
      error, and the two agree everywhere else: a `/connect` post that gets
      no response at all, the first or the retried one, crashes the program
      instead of being reported. */
  lemma ConditionPanicsOnTransportError(token: string, rs: seq<Reply>)
    ensures PostedAsWritten(token, rs).None? <==> Posted(token, rs).reply.TransportError?
    ensures PostedAsWritten(token, rs).Some? ==> PostedAsWritten(token, rs).value == Posted(token, rs)
    ensures PostedAsWritten(token, []).None?
  {
  }

  /** The approval polling: whether it ended approved, how many `/status`
      requests it made and how often it showed the "tap Yes" notice. */
  datatype Polling = Polling(approved: bool, polls: nat, tips: nat)

  /** Polling `rs` until a status other than Waiting; `tipped` when the
      notice was already shown. */
  function Poll(rs: seq<Reply>, tipped: bool): Polling
    decreases |rs|
  {
    match Classify(Head(rs))
    case Approved => Polling(true, 1, 0)
    case Denied => Polling(false, 1, 0)
    case Waiting =>
      var p := Poll(rs[1..], true);
      Polling(p.approved, p.polls + 1, if tipped then 0 else 1)
  }

  /** The outcome of polling is the first status that is not Waiting, every
      poll before it was answered Waiting, and the notice is shown at most
      once, exactly when some poll was answered Waiting. */
  lemma {:induction false} PollMeaning(rs: seq<Reply>, tipped: bool)
    ensures var p := Poll(rs, tipped);
            && 1 <= p.polls <= |rs| + 1
            && (forall k | 0 <= k < p.polls - 1 :: Classify(rs[k]) == Waiting)
            && Classify(Head(Drop(rs, p.polls - 1))) != Waiting
            && (p.approved <==> Classify(Head(Drop(rs, p.polls - 1))) == Approved)
            && p.tips == (if !tipped && p.polls > 1 then 1 else 0)
    decreases |rs|
  {
    if Classify(Head(rs)) == Waiting {
      PollMeaning(rs[1..], true);
      var p := Poll(rs[1..], true);
      assert Drop(rs, p.polls) == Drop(rs[1..], p.polls - 1);
      assert forall k | 1 <= k < p.polls :: rs[k] == rs[1..][k - 1];
    }
  }

  lemma PollWaiting(rs: seq<Reply>, tipped: bool)
    requires Classify(Head(rs)) == Waiting
    ensures rs != [] && Tail(rs) == rs[1..]
    ensures var p := Poll(rs[1..], true);
            Poll(rs, tipped) == Polling(p.approved, p.polls + 1, if tipped then 0 else 1)
  {
  }

  lemma PollStops(rs: seq<Reply>, tipped: bool)
    requires Classify(Head(rs)) != Waiting
    ensures Poll(rs, tipped) == Polling(Classify(Head(rs)) == Approved, 1, 0)
  {
  }

  lemma NextReply(rs: seq<Reply>, n: nat)
    requires n <= |rs|
    ensures Tail(rs[n..]) == Drop(rs, n + 1)
    ensures n < |rs| ==> Tail(rs[n..]) == rs[n + 1..]
  {
  }

  lemma SentStep(sent: seq<Request>, r: Request, n: nat)
    ensures sent + Copies(r, n) + [r] == sent + Copies(r, n + 1)
  {
  }

  class Connector {
    var printer: Option<Printer>

    constructor ()
      ensures printer == None
    {
      printer := None;
    }

    /** `HTTPConnector.URL`, formatted with the HTTP port constant: the same
        address `Machine.URL` builds. */
    function Url(path: string): (u: string)
      reads this
      requires printer.Some?
      ensures u == Machines.Url(printer.value.ip, path)
    {
      "http://" + printer.value.ip + ":" + HttpPort + "/api/v1" + path
    }

    /** `Ping`: a printer that speaks SACP is refused without probing;
        otherwise the printer is taken when its HTTP port answers. */
    method Ping(p: Printer, net: Transport) returns (ok: bool)
      modifies this, net
      ensures p.sacp ==> !ok && printer == old(printer)
      ensures p.sacp ==> net.dialed == old(net.dialed)
      ensures !p.sacp ==> ok == (p.ip in old(net.reachable)) && net.dialed == old(net.dialed) + [p.ip]
      ensures printer == if ok then Some(p) else old(printer)
      ensures net.replies == old(net.replies) && net.sent == old(net.sent) && net.reachable == old(net.reachable)
    {
      if p.sacp {
        return false;
      }
      ok := net.Dial(p.ip);
      if ok {
        printer := Some(p);
      }
    }

    /** The retry condition handed to the HTTP client, with the error
        checked before the status code: on an expired token it clears the
        printer's token and asks for another attempt; after a transport
        error it asks for none. */
    method RetryCondition(reply: Reply) returns (retry: bool)
      requires printer.Some?
      modifies this
      ensures retry == Expired(reply, old(printer.value.token))
      ensures printer == if retry then Some(old(printer.value).(token := "")) else old(printer)
    {
      if !reply.TransportError? && reply.status == 403 && printer.value.token != "" {
        printer := Some(printer.value.(token := ""));
        return true;
      }
      return false;
    }

    /** The `/connect` post as the HTTP client runs it: the request is built
        once, with the token the printer held then, and sent again while the
        retry count lasts and the retry condition asks for it. */
    method PostConnect(net: Transport) returns (reply: Reply)
      requires printer.Some?
      modifies this, net
      ensures var p := Posted(old(printer.value.token), old(net.replies));
              && reply == p.reply
              && printer == Some(old(printer.value).(token := p.token))
              && net.replies == Drop(old(net.replies), p.posts)
              && net.sent == old(net.sent) + Copies(Request(Post, old(Url("/connect")), old(printer.value.token), HttpTimeout), p.posts)
      ensures net.reachable == old(net.reachable) && net.dialed == old(net.dialed)
    {
      var request := Request(Post, Url("/connect"), printer.value.token, Timeout([]));
      ghost var start := net.replies;
      ghost var before := printer.value;
      reply := net.Exchange(request);
      var attempt := 0;
      while attempt < RetryCount
        invariant 0 <= attempt <= 1
        invariant attempt == 0 ==> reply == Head(start) && printer == Some(before)
        invariant attempt == 0 ==> net.replies == Drop(start, 1) && net.sent == old(net.sent) + Copies(request, 1)
        invariant attempt == 1 ==> Expired(Head(start), before.token)
        invariant attempt == 1 ==> reply == Head(Tail(start)) && printer == Some(before.(token := ""))
        invariant attempt == 1 ==> net.replies == Drop(start, 2) && net.sent == old(net.sent) + Copies(request, 2)
        invariant net.reachable == old(net.reachable) && net.dialed == old(net.dialed)
      {
        var retry := RetryCondition(reply);
        if !retry {
          break;
        }
        attempt := attempt + 1;
        reply := net.Exchange(request);
      }
    }

    /** `checkStatus`: one `/status` request, classified. */
    method CheckStatus(net: Transport) returns (s: AuthStatus)
      requires printer.Some?
      modifies net
      ensures s == Classify(Head(old(net.replies))) && net.replies == Tail(old(net.replies))
      ensures net.sent == old(net.sent) + [Request(Get, Url("/status"), printer.value.token, HttpTimeout)]
      ensures net.reachable == old(net.reachable) && net.dialed == old(net.dialed)
    {
      var reply := net.Exchange(Request(Get, Url("/status"), printer.value.token, Timeout([])));
      s := Classify(reply);
    }

    /** The approval loop of `Connect`: poll until approved or denied,
        showing the notice the first time the printer says it is waiting. */
    method AwaitApproval(net: Transport) returns (approved: bool, tips: nat)
      requires printer.Some?
      modifies net
      ensures var p := Poll(old(net.replies), false);
              && approved == p.approved && tips == p.tips
              && net.replies == Drop(old(net.replies), p.polls)
              && net.sent == old(net.sent) + Copies(Request(Get, Url("/status"), printer.value.token, HttpTimeout), p.polls)
      ensures net.reachable == old(net.reachable) && net.dialed == old(net.dialed)
    {
      ghost var start := net.replies;
      ghost var polls := 0;
      ghost var status := Request(Get, Url("/status"), printer.value.token, HttpTimeout);
      var tip := false;
      tips := 0;
      while true
        invariant polls <= |start| && net.replies == start[polls..]
        invariant tip == (polls > 0) && tips == (if tip then 1 else 0)
        invariant var p := Poll(net.replies, tip);
                  Poll(start, false) == Polling(p.approved, p.polls + polls, tips + p.tips)
        invariant net.sent == old(net.sent) + Copies(status, polls)
        invariant net.reachable == old(net.reachable) && net.dialed == old(net.dialed)
        decreases |net.replies|
      {
        ghost var rest := net.replies;
        ghost var sent := net.sent;
        var s := CheckStatus(net);
        NextReply(start, polls);
        SentStep(old(net.sent), status, polls);
        match s
        case Approved =>
          PollStops(rest, tip);
          assert Poll(start, false).polls == polls + 1;
          assert net.replies == Drop(start, polls + 1);
          assert net.sent == old(net.sent) + Copies(status, polls + 1);
          return true, tips;
        case Denied =>
          PollStops(rest, tip);
          assert Poll(start, false).polls == polls + 1;
          assert net.replies == Drop(start, polls + 1);
          assert net.sent == old(net.sent) + Copies(status, polls + 1);
          return false, tips;
        case Waiting =>
          PollWaiting(rest, tip);
          if !tip {
            tip := true;
            tips := tips + 1;
          }
          polls := polls + 1;
      }
    }

    /** `Connect`: post `/connect`, take the returned token on 200, then
        wait for approval on the printer's screen. */
    method Connect(net: Transport) returns (err: Option<ConnectError>, tips: nat)
      requires printer.Some?
      modifies this, net
      ensures var p := Posted(old(printer.value.token), old(net.replies));
              && (ResultError(p.reply).Some? ==> err == ResultError(p.reply) && tips == 0)
              && (ResultError(p.reply).None? && p.reply.status != 200 ==> err == Some(ConnectStatus(p.reply.status)) && tips == 0)
              && (!(p.reply.Response? && p.reply.status == 200) ==>
                    printer == Some(old(printer.value).(token := p.token)))
              && (p.reply.Response? && p.reply.status == 200 ==>
                    var q := Poll(Drop(old(net.replies), p.posts), false);
                    && printer == Some(old(printer.value).(token := p.reply.token))
                    && err == (if q.approved then None else Some(AccessDenied))
                    && tips == q.tips)
      ensures var p := Posted(old(printer.value.token), old(net.replies));
              var rest := Drop(old(net.replies), p.posts);
              var posts := old(net.sent) + Copies(Request(Post, old(Url("/connect")), old(printer.value.token), HttpTimeout), p.posts);
              if p.reply.Response? && p.reply.status == 200 then
                var q := Poll(rest, false);
                && net.sent == posts + Copies(Request(Get, old(Url("/status")), p.reply.token, HttpTimeout), q.polls)
                && net.replies == Drop(rest, q.polls)
              else
                net.sent == posts && net.replies == rest
      ensures err == Some(TransportFailed) <==> PostedAsWritten(old(printer.value.token), old(net.replies)).None?
      ensures net.reachable == old(net.reachable) && net.dialed == old(net.dialed)
    {
      ConditionPanicsOnTransportError(printer.value.token, net.replies);
      var reply := PostConnect(net);
      var failed := ResultError(reply);
      if failed.Some? {
        return failed, 0;
      }
      if reply.status == 200 {
        if printer.value.token != reply.token {
          printer := Some(printer.value.(token := reply.token));
        }
        var approved;
        approved, tips := AwaitApproval(net);
        if approved {
          return None, tips;
        }
        return Some(AccessDenied), tips;
      }
      return Some(ConnectStatus(reply.status)), 0;
    }

    /** `Disconnect`: a request only when the printer holds a token. */
    method Disconnect(net: Transport) returns (err: Option<ConnectError>)
      requires printer.Some?
      modifies net
      ensures printer.value.token == "" ==> err == None && net.sent == old(net.sent) && net.replies == old(net.replies)
      ensures printer.value.token != "" ==>
                && net.sent == old(net.sent) + [Request(Post, Url("/disconnect"), printer.value.token, HttpTimeout)]
                && net.replies == Tail(old(net.replies))
                && (err == Some(TransportFailed) <==> Head(old(net.replies)).TransportError?)
                && (err.None? || err == Some(TransportFailed))
      ensures net.reachable == old(net.reachable) && net.dialed == old(net.dialed)
    {
      err := None;
      if printer.value.token != "" {
        var reply := net.Exchange(Request(Post, Url("/disconnect"), printer.value.token, Timeout([])));
        if reply.TransportError? {
          err := Some(TransportFailed);
        }
      }
    }
  }

  /** A `/connect` whose first reply reports an expired token is posted
      twice and leaves the printer without a token; any other first reply
      is final. */
  lemma ExpiredTokenRetriedOnce(token: string, rs: seq<Reply>)
    ensures Posted(token, rs).posts == (if Expired(Head(rs), token) then 2 else 1)
    ensures Expired(Head(rs), token) ==> Posted(token, rs).token == "" && Posted(token, rs).reply == Head(Tail(rs))
    ensures !Expired(Head(rs), token) ==> Posted(token, rs) == Posting(Head(rs), token, 1)
  {
  }
}
