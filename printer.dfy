/** The printer record parsed from a discovery reply (`NewPrinter`) and its
    one-line description (`Printer.String`). */
module Printers {
  import opened Wrappers
  import opened Text
  import opened Machines

  datatype Printer = Printer(ip: string, id: string, model: string, token: string, sacp: bool)

  /** `model` is what follows the first `:` of `field`. */
  predicate AfterFirstColon(field: string, model: string)
  {
    && |model| < |field|
    && field[|field| - |model| - 1] == ':'
    && field[|field| - |model|..] == model
    && ':' !in field[..|field| - |model| - 1]
  }

  /** The id and address of `id@ip`, split at the last `@`. */
  function SplitAddress(field: string): (r: (string, string))
    requires '@' in field
    ensures r.0 + "@" + r.1 == field && '@' !in r.1
  {
    var at := LastIndexOf(field, '@');
    assert field == field[..at] + "@" + field[at + 1..];
    (field[..at], field[at + 1..])
  }

  /** The text after the first `:` of a field, or the whole field when it
      has none. */
  function ModelOf(field: string): (model: string)
    ensures ':' !in field ==> model == field
    ensures ':' in field ==> AfterFirstColon(field, model)
  {
    var colon := Index(field, ":");
    IndexOneChar(field, ':');
    assert colon >= 0 ==> field[..colon] == field[..|field| - |field[colon + 1..]| - 1];
    field[colon + 1..]
  }

  /** `NewPrinter`. A recognised reply whose first `|`-field has no `@`
      makes the Go code slice at -1 and panic, so callers must not pass one. */
  function NewPrinter(reply: string): (r: Result<Printer, ParseError>)
    requires Recognised(reply) ==> '@' in Split(reply, '|')[0]
    ensures r.Err? <==> !Recognised(reply)
    ensures r.Ok? ==>
              var fields := Split(reply, '|');
              && |fields| >= 2
              && r.value.id + "@" + r.value.ip == fields[0]
              && '@' !in r.value.ip
              && (':' !in fields[1] ==> r.value.model == fields[1])
              && (':' in fields[1] ==> AfterFirstColon(fields[1], r.value.model))
              && (r.value.sacp <==> exists i :: OccursAt(reply, "SACP:1", i))
              && r.value.token == ""
  {
    if !Contains(reply, "|model:") || !Contains(reply, "@") then
      Err(InvalidResponse)
    else
      ContainsPart(reply, "|model:", 0);
      SplitFirst(reply, '|');
      var parts := Split(reply, '|');
      var address := SplitAddress(parts[0]);
      Ok(Printer(ip := address.1, id := address.0, model := ModelOf(parts[1]),
                 token := "", sacp := Contains(reply, "SACP:1")))
  }

  /** `Printer.String`, the name shown when choosing a printer. */
  function Describe(p: Printer): string
  {
    p.id + "@" + p.ip + " - " + p.model
  }

  /** A parsed printer is described by the reply's first field and its
      model. */
  lemma DescribeShowsFirstField(reply: string)
    requires Recognised(reply) && '@' in Split(reply, '|')[0]
    ensures NewPrinter(reply).Ok?
    ensures Describe(NewPrinter(reply).value) == Split(reply, '|')[0] + " - " + NewPrinter(reply).value.model
  {
    var p := NewPrinter(reply).value;
    assert Describe(p) == (p.id + "@" + p.ip) + " - " + p.model;
  }

  /** A reply that passes the `|model:`/`@` check although its first field
      has no `@`: the `@` is elsewhere in the reply. `NewPrinter` slices
      such a reply at -1. */
  lemma GuardAdmitsAddresslessField()
    ensures var reply := "x|model:@";
            Recognised(reply) && '@' !in Split(reply, '|')[0]
  {
    var reply := "x|model:@";
    assert OccursAt(reply, "|model:", 1);
    assert OccursAt(reply, "@", 8);
    SplitFirst(reply, '|');
    var first := Split(reply, '|')[0];
    assert reply == first + "|" + Join(Split(reply, '|')[1..], '|');
    assert first == "x" by {
      if |first| > 0 {
        assert reply[|first|] == '|';
      }
    }
  }

  /** `NewPrinter` with the check made on the field it slices: a reply whose
      first field has no `@` is rejected as an invalid response. */
  function ParsePrinter(reply: string): (r: Result<Printer, ParseError>)
    ensures r.Ok? <==> Recognised(reply) && '@' in Split(reply, '|')[0]
    ensures r.Ok? ==> r == NewPrinter(reply)
  {
    if Recognised(reply) && '@' in Split(reply, '|')[0] then NewPrinter(reply) else Err(InvalidResponse)
  }
}
