/** The datagrams of the algorithm test: fields between vertical bars, read with `strtok_r`. */
module AlgorithmMessages {
  import opened Core
  import Text

  const PROTOCOL := "IPSEC-ALGORITHM-1"
  const MESSAGE_LENGTH: nat := 1024

  // ---------- Fields

  function Tokens(text: string): seq<string> {
    Text.Tokens(text, '|')
  }

  predicate Clean(field: string) {
    Text.Clean(field, '|')
  }

  predicate AllClean(fields: seq<string>) {
    Text.AllClean(fields, '|')
  }

  /** What a message's fields are, if it is one of this protocol with at most so many of them. */
  function Parse(text: string, capacity: nat): Option<seq<string>> {
    var fields := Tokens(text);
    if 2 <= |fields| <= capacity && fields[0] == PROTOCOL then Some(fields) else None
  }

  /** `SplitNativeAppAlgorithmMessage`. */
  method Split(text: string, capacity: nat) returns (fields: Option<seq<string>>)
    requires 0 < capacity
    ensures fields == Parse(text, capacity)
  {
    var line := Text.UpToNul(text);
    var taken: seq<string> := [];
    var token, cursor := Text.NextToken(line, 0, '|');
    ghost var left := Text.TokensFrom(line, 0, '|');
    while token.Some? && |taken| < capacity
      invariant 0 <= cursor <= |line|
      invariant left == if token.None? then [] else [token.value] + Text.TokensFrom(line, cursor, '|')
      invariant Tokens(text) == taken + left
      invariant |taken| <= capacity
      decreases token.Some?, |line| - cursor, capacity - |taken|
    {
      MoveFirst(taken, token.value, Text.TokensFrom(line, cursor, '|'));
      taken := taken + [token.value];
      left := Text.TokensFrom(line, cursor, '|');
      token, cursor := Text.NextToken(line, cursor, '|');
    }
    if token.Some? || 2 > |taken| || taken[0] != PROTOCOL {
      fields := None;
    } else {
      assert taken + [] == taken;
      fields := Some(taken);
    }
  }

  lemma {:induction false} MoveFirst(taken: seq<string>, token: string, rest: seq<string>)
    ensures taken + ([token] + rest) == taken + [token] + rest
  {
  }

  // ---------- Messages

  predicate Safe(field: string) {
    '|' !in field && '\r' !in field && '\n' !in field
  }

  function ControlText(action: string, id: string, value1: string, value2: string): string {
    Text.Glue([PROTOCOL, action, id, value1, value2], '|')
  }

  /** `FormatNativeAppAlgorithmMessage`. */
  method Format(action: string, id: string, value1: string, value2: string) returns (error: Error, text: string)
    ensures error == InvalidArgument <==> !(Safe(action) && Safe(id) && Safe(value1) && Safe(value2))
    ensures error == Ok ==> text == ControlText(action, id, value1, value2)
    ensures error in {Ok, InvalidArgument, BufferTooSmall}
  {
    text := ControlText(action, id, value1, value2);
    if !(Safe(action) && Safe(id) && Safe(value1) && Safe(value2)) {
      error := InvalidArgument;
    } else if |text| >= MESSAGE_LENGTH {
      error := BufferTooSmall;
    } else {
      error := Ok;
    }
  }

  lemma {:induction false} ControlRead(action: string, id: string, value1: string, value2: string)
    requires Clean(action) && Clean(id) && Clean(value1) && Clean(value2)
    ensures Tokens(ControlText(action, id, value1, value2)) == [PROTOCOL, action, id, value1, value2]
  {
    assert Clean(PROTOCOL);
    Text.ReadBackIffClean([PROTOCOL, action, id, value1, value2], '|');
  }

  /** The announcement of a case.  The proposals are copied into it unchecked. */
  function PrepareText(id: string, ike: string, esp: string, run: string, number: nat, requested: nat): string {
    Text.Glue([PROTOCOL, "PREPARE", id, ike, esp, run, Decimal(number), Decimal(requested)], '|')
  }

  /** The responder reads an announcement as it was meant exactly when its texts are not empty and hold no bar. */
  lemma {:induction false} PrepareRead(id: string, ike: string, esp: string, run: string, number: nat, requested: nat)
    ensures Tokens(PrepareText(id, ike, esp, run, number, requested)) ==
            [PROTOCOL, "PREPARE", id, ike, esp, run, Decimal(number), Decimal(requested)]
            <==> Clean(id) && Clean(ike) && Clean(esp) && Clean(run)
  {
    var fields := [PROTOCOL, "PREPARE", id, ike, esp, run, Decimal(number), Decimal(requested)];
    DigitsClean(Decimal(number));
    DigitsClean(Decimal(requested));
    assert Clean(PROTOCOL) && Clean("PREPARE");
    assert AllClean(fields) ==> Clean(fields[2]) && Clean(fields[3]) && Clean(fields[4]) && Clean(fields[5]);
    Text.ReadBackIffClean(fields, '|');
  }

  lemma {:induction false} DigitsClean(digits: string)
    requires digits != [] && AllDigits(digits)
    ensures Clean(digits)
  {
  }

  /** What stands behind the case id in an announcement. */
  function Said(ike: string, esp: string, run: string, number: nat, requested: nat): (r: seq<string>)
    ensures |r| >= 3
  {
    Tokens(ike) + Tokens(esp) + [run, Decimal(number), Decimal(requested)]
  }

  /** How an announcement is read, whatever the proposals hold. */
  lemma {:induction false} AnnouncementReads(id: string, ike: string, esp: string, run: string, number: nat, requested: nat)
    requires Clean(id) && Clean(run) && '\0' !in ike && '\0' !in esp
    ensures Tokens(PrepareText(id, ike, esp, run, number, requested)) == [PROTOCOL, "PREPARE", id] + Said(ike, esp, run, number, requested)
  {
    hide Text.Tokens;
    var fields := [PROTOCOL, "PREPARE", id, ike, esp, run, Decimal(number), Decimal(requested)];
    DigitsClean(Decimal(number));
    DigitsClean(Decimal(requested));
    assert Clean(PROTOCOL) && Clean("PREPARE");
    Text.TokensOfGlue(fields, '|');
    EightTokens(PROTOCOL, "PREPARE", id, ike, esp, run, Decimal(number), Decimal(requested));
    Text.TokenOfClean(PROTOCOL, '|');
    Text.TokenOfClean("PREPARE", '|');
    Text.TokenOfClean(id, '|');
    Text.TokenOfClean(run, '|');
    Text.TokenOfClean(Decimal(number), '|');
    Text.TokenOfClean(Decimal(requested), '|');
  }

  lemma {:induction false} EightTokens(a: string, b: string, c: string, d: string, e: string, f: string, g: string, h: string)
    ensures Text.AllTokens([a, b, c, d, e, f, g, h], '|') ==
            Tokens(a) + (Tokens(b) + (Tokens(c) + (Tokens(d) + (Tokens(e) + (Tokens(f) + (Tokens(g) + Tokens(h)))))))
  {
    hide Text.Tokens;
    AddTokens(a, [b, c, d, e, f, g, h]);
    AddTokens(b, [c, d, e, f, g, h]);
    AddTokens(c, [d, e, f, g, h]);
    AddTokens(d, [e, f, g, h]);
    AddTokens(e, [f, g, h]);
    AddTokens(f, [g, h]);
    AddTokens(g, [h]);
    AddTokens(h, []);
  }

  lemma {:induction false} AddTokens(field: string, rest: seq<string>)
    ensures Text.AllTokens([field] + rest, '|') == Tokens(field) + Text.AllTokens(rest, '|')
    ensures rest == [] ==> Text.AllTokens([field] + rest, '|') == Tokens(field)
  {
    hide Text.Tokens;
    assert ([field] + rest)[1..] == rest;
  }

  /** A bar in a proposal is not refused: one before it is silently dropped by the responder. */
  lemma {:induction false} LeadingBarDropped(id: string, ike: string, esp: string, run: string, number: nat, requested: nat)
    requires Clean(id) && Clean(run) && '\0' !in ike && '\0' !in esp
    ensures Tokens(PrepareText(id, "|" + ike, esp, run, number, requested)) == Tokens(PrepareText(id, ike, esp, run, number, requested))
  {
    hide Text.Tokens, PrepareText;
    AnnouncementReads(id, "|" + ike, esp, run, number, requested);
    AnnouncementReads(id, ike, esp, run, number, requested);
    Text.LeadingDropped(ike, '|');
  }

  /** The two proposals are read as they were meant exactly if neither is empty and neither holds a bar. */
  lemma {:induction false} ProposalsRead(ike: string, esp: string, run: string, number: nat, requested: nat)
    requires Clean(run) && '\0' !in ike && '\0' !in esp
    ensures var said := Said(ike, esp, run, number, requested);
            said[0] == ike && said[1] == esp <==> Clean(ike) && Clean(esp)
  {
    hide Text.Tokens;
    var said := Said(ike, esp, run, number, requested);
    Text.TokensClean(ike, '|');
    Text.TokensClean(esp, '|');
    Text.TokenOfClean(ike, '|');
    Text.TokenOfClean(esp, '|');
    DigitsClean(Decimal(number));
    DigitsClean(Decimal(requested));
    assert AllClean(said);
    assert Clean(said[0]) && Clean(said[1]);
  }
}
