/** The interactive command line: a tokenizer with quotes and escapes that rewrites its own input. */
module CommandLine {
  import opened Core

  // ---------- The tokenizer on an immutable text

  function SkipBlank(s: string, from: nat): (k: nat)
    requires from <= |s|
    ensures from <= k <= |s| && (k < |s| ==> !IsSpace(s[k]))
    decreases |s| - from
  {
    if from < |s| && IsSpace(s[from]) then SkipBlank(s, from + 1) else from
  }

  predicate IsQuote(c: char) {
    c == '\'' || c == '"'
  }

  // One argument and the position behind it.
  datatype Word = Word(text: string, next: nat)

  function Prepend(prefix: string, w: Option<Word>): Option<Word> {
    if w.None? then None else Some(Word(prefix + w.value.text, w.value.next))
  }

  /** The rest of an argument.  `quote` is the open quote or NUL; an argument with an open quote has no end. */
  function WordFrom(s: string, from: nat, quote: char): (w: Option<Word>)
    requires from <= |s|
    ensures w.Some? ==> from <= w.value.next <= |s|
    ensures w.Some? && from < |s| && (quote != '\0' || !IsSpace(s[from])) ==> from < w.value.next
    ensures w.Some? && w.value.next < |s| ==> IsSpace(s[w.value.next])
    decreases |s| - from
  {
    if from == |s| then if quote != '\0' then None else Some(Word([], from))
    else
      var c := s[from];
      if quote != '\0' && c == quote then WordFrom(s, from + 1, '\0')
      else if quote == '\0' && IsQuote(c) then WordFrom(s, from + 1, c)
      else if quote == '\0' && IsSpace(c) then Some(Word([], from))
      else if c == '\\' && from + 1 < |s| then Prepend([s[from + 1]], WordFrom(s, from + 2, quote))
      else Prepend([c], WordFrom(s, from + 1, quote))
  }

  /** The arguments of a command line, unless a quote is left open. */
  function ArgumentsFrom(s: string, from: nat): Option<seq<string>>
    requires from <= |s|
    decreases |s| - from
  {
    var at := SkipBlank(s, from);
    if at == |s| then Some([])
    else
      var word := WordFrom(s, at, '\0');
      if word.None? then None
      else
        var rest := ArgumentsFrom(s, word.value.next);
        if rest.None? then None else Some([word.value.text] + rest.value)
  }

  function Arguments(s: string): Option<seq<string>> {
    ArgumentsFrom(s, 0)
  }

  // ---------- The tokenizer in place

  /** What the buffer must still hold: the text that has not been read, and the end of the line. */
  ghost predicate Unread(line: array<char>, text: string, read: nat)
    reads line
  {
    && read <= |text| < line.Length
    && (forall k :: read <= k < |text| ==> line[k] == text[k])
    && line[|text|] == '\0'
  }

  lemma {:induction false} WordStep(s: string, from: nat, quote: char)
    requires from < |s|
    ensures var c := s[from];
            WordFrom(s, from, quote) ==
            if quote != '\0' && c == quote then WordFrom(s, from + 1, '\0')
            else if quote == '\0' && IsQuote(c) then WordFrom(s, from + 1, c)
            else if quote == '\0' && IsSpace(c) then Some(Word([], from))
            else if c == '\\' && from + 1 < |s| then Prepend([s[from + 1]], WordFrom(s, from + 2, quote))
            else Prepend([c], WordFrom(s, from + 1, quote))
  {
  }

  lemma {:induction false} WordEnd(s: string, quote: char)
    ensures WordFrom(s, |s|, quote) == if quote != '\0' then None else Some(Word([], |s|))
  {
  }

  /** `*pcWrite = value`, at or before the last character read. */
  method Store(line: array<char>, ghost text: string, ghost read: nat, ghost first: nat, write: nat, value: char)
    requires Unread(line, text, read) && first <= write < read
    modifies line
    ensures Unread(line, text, read)
    ensures line[first..write + 1] == old(line[first..write]) + [value]
    ensures forall k :: 0 <= k < line.Length && k != write ==> line[k] == old(line[k])
  {
    line[write] := value;
  }

  /** The loop over one argument: it writes behind what it reads, never ahead of it. */
  method ReadWord(line: array<char>, ghost text: string, start: nat, first: nat)
      returns (closed: bool, read: nat, write: nat)
    requires '\0' !in text && Unread(line, text, start) && first <= start < |text| && !IsSpace(text[start])
    modifies line
    ensures forall k :: 0 <= k < first || |text| <= k < line.Length ==> line[k] == old(line[k])
    ensures Unread(line, text, read) && first <= write <= read
    ensures closed <==> WordFrom(text, start, '\0').Some?
    ensures closed ==> WordFrom(text, start, '\0') == Some(Word(line[first..write], read))
  {
    hide WordFrom;
    read, write := start, first;
    var quote := '\0';
    assert line[first..first] == [];
    PrependNothing(WordFrom(text, start, '\0'));
    while line[read] != '\0'
      invariant Unread(line, text, read) && first <= write <= read
      invariant forall k :: 0 <= k < first || |text| <= k < line.Length ==> line[k] == old(line[k])
      invariant WordFrom(text, start, '\0') == Prepend(line[first..write], WordFrom(text, read, quote))
      decreases |text| - read
    {
      assert text[read] in text;
      WordStep(text, read, quote);
      var value := line[read];
      ghost var done := line[first..write];
      if quote != '\0' && quote == value {
        quote := '\0';
        read := read + 1;
      } else if quote == '\0' && IsQuote(value) {
        quote := value;
        read := read + 1;
      } else if quote == '\0' && IsSpace(value) {
        assert done + [] == done;
        return true, read, write;
      } else if value == '\\' && line[read + 1] != '\0' {
        PrependTwice(done, line[read + 1], WordFrom(text, read + 2, quote));
        read := read + 1;
        Store(line, text, read + 1, first, write, line[read]);
        write := write + 1;
        read := read + 1;
      } else {
        PrependTwice(done, value, WordFrom(text, read + 1, quote));
        Store(line, text, read + 1, first, write, value);
        write := write + 1;
        read := read + 1;
      }
    }
    WordEnd(text, quote);
    closed := quote == '\0';
    assert line[first..write] + [] == line[first..write];
  }

  lemma {:induction false} PrependNothing(w: Option<Word>)
    ensures Prepend([], w) == w
  {
    if w.Some? {
      assert [] + w.value.text == w.value.text;
    }
  }

  lemma {:induction false} PrependTwice(done: string, c: char, w: Option<Word>)
    ensures Prepend(done, Prepend([c], w)) == Prepend(done + [c], w)
  {
    if w.Some? {
      assert done + ([c] + w.value.text) == done + [c] + w.value.text;
    }
  }

  /** `while (isspace(*pcRead)) pcRead++`. */
  method SkipSpaces(line: array<char>, ghost text: string, from: nat) returns (read: nat)
    requires '\0' !in text && Unread(line, text, from)
    ensures read == SkipBlank(text, from) && Unread(line, text, read)
  {
    read := from;
    while IsSpace(line[read])
      invariant Unread(line, text, read) && SkipBlank(text, read) == SkipBlank(text, from)
      decreases |text| - read
    {
      read := read + 1;
    }
  }

  /** An argument in the buffer: its characters and then a NUL. */
  predicate Holds(buffer: seq<char>, at: nat, word: string) {
    at + |word| < |buffer| && buffer[at..at + |word|] == word && buffer[at + |word|] == '\0'
  }

  /** Finished arguments stand in the buffer one behind the other, all of them before `limit`. */
  predicate Placed(buffer: seq<char>, starts: seq<nat>, words: seq<string>, limit: nat) {
    && |starts| == |words|
    && (forall i :: 0 <= i < |starts| ==> Holds(buffer, starts[i], words[i]) && starts[i] + |words[i]| < limit)
    && (forall i, j :: 0 <= i < j < |starts| ==> starts[i] + |words[i]| < starts[j])
  }

  lemma {:induction false} PlacedMore(before: seq<char>, after: seq<char>, starts: seq<nat>, words: seq<string>, at: nat, word: string)
    requires Placed(before, starts, words, at) && Holds(after, at, word)
    requires |before| == |after| && forall k :: 0 <= k < at && k < |before| ==> after[k] == before[k]
    ensures Placed(after, starts + [at], words + [word], at + |word| + 1)
  {
    forall i | 0 <= i < |starts|
      ensures Holds(after, starts[i], words[i])
    {
      assert after[starts[i]..starts[i] + |words[i]|] == before[starts[i]..starts[i] + |words[i]|];
    }
  }

  /** One turn of the outer loop behind the blanks: an argument is opened, read and closed with a NUL. */
  method ReadArgument(line: array<char>, ghost text: string, start: nat, first: nat)
      returns (closed: bool, read: nat, write: nat, ghost word: string)
    requires '\0' !in text && Unread(line, text, start) && first <= start < |text| && !IsSpace(text[start])
    modifies line
    ensures forall k :: 0 <= k < first || |text| <= k < line.Length ==> line[k] == old(line[k])
    ensures Unread(line, text, read) && (write <= read || (read == |text| && write == |text| + 1))
    ensures closed <==> WordFrom(text, start, '\0').Some?
    ensures closed ==> start < read && Holds(line[..], first, word) && write == first + |word| + 1
    ensures closed ==>
              && WordFrom(text, start, '\0').value.text == word
              && read == SkipBlank(text, WordFrom(text, start, '\0').value.next)
  {
    closed, read, write := ReadWord(line, text, start, first);
    word := [];
    if closed {
      word := line[first..write];
      assert word == line[..][first..write];
      read := SkipSpaces(line, text, read);
      line[write] := '\0';
      assert line[..][first..write] == word;
      write := write + 1;
    }
  }

  lemma {:induction false} ArgumentsStep(s: string, at: nat, word: Word)
    requires at < |s| && !IsSpace(s[at]) && WordFrom(s, at, '\0') == Some(word)
    ensures var rest := ArgumentsFrom(s, SkipBlank(s, word.next));
            ArgumentsFrom(s, at) == if rest.None? then None else Some([word.text] + rest.value)
  {
    SkipTwice(s, word.next);
  }

  /** `ParseNativeAppCommandLine` computes the arguments of the original line, or rejects it, and leaves the
      arguments as disjoint NUL-terminated ranges of the buffer.  Nothing behind the line is touched. */
  method ParseCommandLine(line: array<char>, capacity: nat, ghost text: string) returns (parsed: bool, starts: seq<nat>, ghost words: seq<string>)
    requires 0 < capacity && '\0' !in text && Unread(line, text, 0)
    modifies line
    ensures parsed <==> Arguments(text).Some? && |Arguments(text).value| <= capacity
    ensures parsed ==> Arguments(text) == Some(words) && Placed(line[..], starts, words, |text| + 1)
    ensures !parsed ==> starts == []
    ensures forall k :: |text| <= k < line.Length ==> line[k] == old(line[k])
  {
    hide WordFrom, ArgumentsFrom, Holds;
    parsed, starts, words := true, [], [];
    var read, write := 0, 0;
    assert Arguments(text).Some? ==> [] + Arguments(text).value == Arguments(text).value;
    while true
      invariant 0 <= read && 0 <= write && Unread(line, text, read)
      invariant write <= read || (read == |text| && write == |text| + 1)
      invariant Placed(line[..], starts, words, write) && |starts| <= capacity
      invariant Arguments(text) == Before(words, ArgumentsFrom(text, read))
      invariant forall k :: |text| <= k < line.Length ==> line[k] == old(line[k])
      decreases |text| - read
    {
      SkipTwice(text, read);
      read := SkipSpaces(line, text, read);
      if line[read] == '\0' {
        NoArguments(text, read);
        assert words + [] == words;
        return;
      }
      if |starts| >= capacity {
        SomeArgument(text, read);
        return false, [], [];
      }
      ghost var before, from := line[..], read;
      ghost var word: string;
      var first := write;
      var closed: bool;
      closed, read, write, word := ReadArgument(line, text, read, write);
      if !closed {
        SomeArgument(text, from);
        return false, [], [];
      }
      ArgumentsStep(text, from, WordFrom(text, from, '\0').value);
      BeforeOneMore(words, word, ArgumentsFrom(text, read));
      PlacedMore(before, line[..], starts, words, first, word);
      starts, words := starts + [first], words + [word];
    }
  }

  lemma {:induction false} NoArguments(s: string, at: nat)
    requires at == |s|
    ensures ArgumentsFrom(s, at) == Some([])
  {
  }

  lemma {:induction false} SomeArgument(s: string, at: nat)
    requires at < |s| && !IsSpace(s[at])
    ensures ArgumentsFrom(s, at).Some? ==> WordFrom(s, at, '\0').Some? && |ArgumentsFrom(s, at).value| >= 1
  {
  }

  function Before(words: seq<string>, rest: Option<seq<string>>): Option<seq<string>> {
    if rest.None? then None else Some(words + rest.value)
  }

  lemma {:induction false} BeforeOneMore(words: seq<string>, word: string, rest: Option<seq<string>>)
    ensures Before(words, if rest.None? then None else Some([word] + rest.value)) == Before(words + [word], rest)
  {
    if rest.Some? {
      assert words + ([word] + rest.value) == words + [word] + rest.value;
    }
  }

  lemma {:induction false} SkipTwice(s: string, from: nat)
    requires from <= |s|
    ensures ArgumentsFrom(s, SkipBlank(s, from)) == ArgumentsFrom(s, from)
  {
    assert SkipBlank(s, SkipBlank(s, from)) == SkipBlank(s, from);
  }

  // ---------- Quoting

  /** The characters of an argument inside single quotes. */
  function Escape(argument: string): string {
    if argument == [] then []
    else (if argument[0] == '\\' || argument[0] == '\'' then ['\\', argument[0]] else [argument[0]]) + Escape(argument[1..])
  }

  function Quote(argument: string): string {
    "'" + Escape(argument) + "'"
  }

  function QuoteAll(arguments: seq<string>): string {
    if arguments == [] then [] else Quote(arguments[0]) + (" " + QuoteAll(arguments[1..]))
  }

  lemma {:induction false} EscapeLayout(before: string, coded: string, escaped: string, rest: string)
    requires 1 <= |coded| <= 2
    ensures var s := before + (coded + escaped) + rest;
            && s == before + coded + escaped + rest
            && s[|before|] == coded[0] && s[|before| + |coded| - 1] == coded[|coded| - 1]
  {
  }

  lemma {:induction false} EscapedReads(before: string, argument: string, rest: string)
    requires rest != [] && rest[0] == '\''
    ensures var s := before + Escape(argument) + rest;
            WordFrom(s, |before|, '\'') == Prepend(argument, WordFrom(s, |before| + |Escape(argument)|, '\''))
    decreases |argument|
  {
    var s := before + Escape(argument) + rest;
    if argument == [] {
      PrependNothing(WordFrom(s, |before|, '\''));
    } else {
      var c := argument[0];
      var coded := if c == '\\' || c == '\'' then ['\\', c] else [c];
      var next := before + coded;
      EscapeLayout(before, coded, Escape(argument[1..]), rest);
      EscapedReads(next, argument[1..], rest);
      assert WordFrom(s, |before|, '\'') == Prepend([c], WordFrom(s, |next|, '\''));
      PrependRest(c, argument, WordFrom(s, |before| + |Escape(argument)|, '\''));
    }
  }

  lemma {:induction false} PrependRest(c: char, argument: string, w: Option<Word>)
    requires argument != [] && argument[0] == c
    ensures Prepend([c], Prepend(argument[1..], w)) == Prepend(argument, w)
  {
    if w.Some? {
      assert argument == [c] + argument[1..];
      assert [c] + (argument[1..] + w.value.text) == argument + w.value.text;
    }
  }

  lemma {:induction false} QuotedReads(before: string, argument: string, rest: string)
    requires rest != [] && IsSpace(rest[0])
    ensures var s := before + Quote(argument) + rest;
            WordFrom(s, |before|, '\0') == Some(Word(argument, |before| + |Quote(argument)|))
  {
    var s := before + Quote(argument) + rest;
    var open := before + "'";
    assert s == open + Escape(argument) + ("'" + rest);
    EscapedReads(open, argument, "'" + rest);
    var end := |open| + |Escape(argument)|;
    assert s[|before|] == '\'' && s[end] == '\'' && s[end + 1] == rest[0];
    assert WordFrom(s, end, '\'') == WordFrom(s, end + 1, '\0') == Some(Word([], end + 1));
    assert argument + [] == argument;
  }

  lemma {:induction false} BlankSkipped(s: string, at: nat)
    requires at < |s| && s[at] == ' '
    ensures ArgumentsFrom(s, at) == ArgumentsFrom(s, at + 1)
  {
    assert SkipBlank(s, at) == SkipBlank(s, at + 1);
    SkipTwice(s, at);
    SkipTwice(s, at + 1);
  }

  lemma {:induction false} QuotedLayout(before: string, first: string, rest: string)
    ensures var s := before + Quote(first) + (" " + rest);
            var behind := |before| + |Quote(first)|;
            && s == (before + Quote(first) + " ") + rest && |before + Quote(first) + " "| == behind + 1
            && s[|before|] == '\'' && s[behind] == ' '
  {
  }

  lemma {:induction false} QuotedAllRead(before: string, arguments: seq<string>)
    ensures ArgumentsFrom(before + QuoteAll(arguments), |before|) == Some(arguments)
    decreases |arguments|
  {
    hide ArgumentsFrom, WordFrom, Quote;
    var s := before + QuoteAll(arguments);
    if arguments == [] {
      NoArguments(s, |before|);
    } else {
      var first, rest := arguments[0], QuoteAll(arguments[1..]);
      var behind := |before| + |Quote(first)|;
      assert s == before + Quote(first) + (" " + rest);
      QuotedLayout(before, first, rest);
      QuotedReads(before, first, " " + rest);
      QuotedAllRead(before + Quote(first) + " ", arguments[1..]);
      BlankSkipped(s, behind);
      SkipTwice(s, behind);
      ArgumentsStep(s, |before|, Word(first, behind));
      assert arguments == [first] + arguments[1..];
    }
  }

  /** Every list of arguments survives quoting: empty ones, and ones with spaces, quotes and backslashes. */
  lemma {:induction false} QuotingReadsBack(arguments: seq<string>)
    ensures Arguments(QuoteAll(arguments)) == Some(arguments)
  {
    QuotedAllRead([], arguments);
    assert [] + QuoteAll(arguments) == QuoteAll(arguments);
  }
}
