/** Discovery replies and the machine record built from one
    (`NewMachine`), and the HTTP API address of a machine (`URL`).

    A discovery reply reads `<id>@<ip>|model:<model>|status:<status>|SACP:<0|1>`. */
module Machines {
  import opened Wrappers
  import opened Text

  datatype ParseError = InvalidResponse

  /** The check both discovery parsers make before slicing a reply: it
      mentions `|model:` and has an `@`. */
  predicate Recognised(reply: string)
  {
    Contains(reply, "|model:") && Contains(reply, "@")
  }

  /** A machine as remembered in local storage. `ip` is the sender's address
      of the discovery reply, not text from the reply. */
  datatype Machine = Machine(response: string, ip: string, id: string, token: string)

  /** `NewMachine`: accepts a recognised reply and names the machine by the
      text before the reply's first `@`. */
  function NewMachine(senderIp: string, reply: string): (r: Result<Machine, ParseError>)
    ensures r.Err? <==> !Recognised(reply)
    ensures r.Ok? ==>
              && |r.value.id| < |reply|
              && reply[..|r.value.id|] == r.value.id
              && reply[|r.value.id|] == '@'
              && '@' !in r.value.id
              && r.value.ip == senderIp
              && r.value.response == reply
              && r.value.token == ""
  {
    if !Contains(reply, "|model:") || !Contains(reply, "@") then
      Err(InvalidResponse)
    else
      ContainsChar(reply, '@');
      SplitFirst(reply, '@');
      var id := Split(reply, '@')[0];
      assert reply[..|id|] == id;
      Ok(Machine(response := reply, ip := senderIp, id := id, token := ""))
  }

  /** `Machine.URL` (and `HTTPConnector.URL`, which formats the same text):
      the printer's HTTP API address for `path`. */
  function Url(ip: string, path: string): string
  {
    "http://" + ip + ":8080/api/v1" + path
  }

  lemma UrlParts(ip: string, path: string)
    ensures var u := Url(ip, path);
            && u[7..7 + |ip|] == ip
            && u[7 + |ip|] == ':'
            && u[7 + |ip| + 12..] == path
  {
  }

  /** For addresses without a colon (dotted IPv4), an API address names
      exactly one host and one path. */
  lemma UrlDeterminesTarget(ip1: string, path1: string, ip2: string, path2: string)
    requires ':' !in ip1 && ':' !in ip2
    ensures Url(ip1, path1) == Url(ip2, path2) <==> ip1 == ip2 && path1 == path2
  {
    UrlParts(ip1, path1);
    UrlParts(ip2, path2);
  }
}
