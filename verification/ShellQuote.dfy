/** Quoting of arguments for scripts that a POSIX shell runs, against the shell's own reading of words. */
module ShellQuote {
  import opened Outcomes

  /** `strings.ReplaceAll` of a single quote. */
  function ReplaceQuotes(value: string): string {
    if value == "" then ""
    else if value[0] == '\'' then "'\"'\"'" + ReplaceQuotes(value[1..])
    else [value[0]] + ReplaceQuotes(value[1..])
  }

  /** `shellQuote`. */
  function Quote(value: string): string {
    if value == "" then "''" else "'" + ReplaceQuotes(value) + "'"
  }

  // ---- words of a command, POSIX.1-2017 Shell Command Language, sections 2.2 and 2.3 ----

  datatype Mode = Plain | Single | Double

  /** Characters that, unquoted, start an expansion, an operator, a comment or a pattern, or may do so. */
  predicate IsSpecial(c: char) { c in "|&;<>()$`*?[]#~=%!{}\n" }

  /** No shell argument or script can carry it. */
  const NUL: char := '\0'

  predicate IsBlank(c: char) { c == ' ' || c == '\t' }

  function Begun(word: Option<string>): string { if word.Some? then word.value else "" }

  /** One step of reading: how many characters it takes, and the words it ends. */
  datatype Move = Stuck | Move(taken: nat, mode: Mode, word: Option<string>, ended: seq<string>)

  function Ended(word: Option<string>): seq<string> { if word.Some? then [word.value] else [] }

  function Add(mode: Mode, word: Option<string>, c: char, taken: nat): Move { Move(taken, mode, Some(Begun(word) + [c]), []) }

  function Step(s: string, mode: Mode, word: Option<string>): (m: Move)
    requires s != ""
    ensures m.Move? ==> 1 <= m.taken <= |s|
  {
    var c := s[0];
    if c == NUL then Stuck else
    match mode
    case Single => if c == '\'' then Move(1, Plain, word, []) else Add(Single, word, c, 1)
    case Double =>
      if c == '"' then Move(1, Plain, word, [])
      else if c == '$' || c == '`' then Stuck
      else if c == '\\' && |s| > 1 && s[1] == '\n' then Move(2, Double, word, [])
      else if c == '\\' && |s| > 1 && s[1] in "$`\"\\" then Add(Double, word, s[1], 2)
      else Add(Double, word, c, 1)
    case Plain =>
      if c == '\'' then Move(1, Single, Some(Begun(word)), [])
      else if c == '"' then Move(1, Double, Some(Begun(word)), [])
      else if c == '\\' then
        if |s| == 1 || s[1] == NUL then Stuck
        else if s[1] == '\n' then Move(2, Plain, word, [])
        else Add(Plain, word, s[1], 2)
      else if IsBlank(c) then Move(1, Plain, None, Ended(word))
      else if IsSpecial(c) then Stuck
      else Add(Plain, word, c, 1)
  }

  /** The words of a text after quote removal. No result where the text needs more than quoting to be read:
      unquoted special characters, expansions in double quotes, or an open quote at the end; nor for a text with NUL. */
  function Scan(s: string, mode: Mode, word: Option<string>): Option<seq<string>>
    decreases |s|
  {
    if s == "" then
      if mode == Plain then Some(Ended(word)) else None
    else
      var m := Step(s, mode, word);
      if m.Stuck? then None
      else
        var words := Scan(s[m.taken..], m.mode, m.word);
        if words.None? then None else Some(m.ended + words.value)
  }

  function Words(s: string): Option<seq<string>> { Scan(s, Plain, None) }

  /** Steps that end no word. */
  lemma {:induction false} Quiet(s: string, mode: Mode, word: Option<string>)
    requires s != "" && Step(s, mode, word).Move? && Step(s, mode, word).ended == []
    ensures var m := Step(s, mode, word); Scan(s, mode, word) == Scan(s[m.taken..], m.mode, m.word)
  {
    var m := Step(s, mode, word);
    var words := Scan(s[m.taken..], m.mode, m.word);
    if words.Some? { assert [] + words.value == words.value; }
  }

  /** The quoted body of a value adds exactly the value to the word being read. */
  lemma {:induction false} BodyScans(value: string, rest: string, word: string)
    requires NUL !in value
    ensures Scan(ReplaceQuotes(value) + ("'" + rest), Single, Some(word)) == Scan(rest, Plain, Some(word + value))
  {
    if value == "" {
      BodyEnds(rest, word);
    } else {
      BodyStep(value, rest, word);
      BodyScans(value[1..], rest, word + [value[0]]);
      hide *;
      PutBack(word, value);
    }
  }

  lemma PutBack(word: string, value: string)
    requires value != ""
    ensures word + [value[0]] + value[1..] == word + value
  {
  }

  lemma {:induction false} BodyEnds(rest: string, word: string)
    ensures Scan(ReplaceQuotes("") + ("'" + rest), Single, Some(word)) == Scan(rest, Plain, Some(word + ""))
  {
    var all := "'" + rest;
    assert ReplaceQuotes("") + all == all && all[1..] == rest && word + "" == word;
    hide Scan;
    Quiet(all, Single, Some(word));
  }

  lemma {:induction false} BodyStep(value: string, rest: string, word: string)
    requires value != "" && value[0] != NUL
    ensures Scan(ReplaceQuotes(value) + ("'" + rest), Single, Some(word)) ==
            Scan(ReplaceQuotes(value[1..]) + ("'" + rest), Single, Some(word + [value[0]]))
  {
    BodyText(value, rest);
    hide *;
    var tail := ReplaceQuotes(value[1..]) + ("'" + rest);
    if value[0] == '\'' {
      QuotedQuote(tail, word);
    } else {
      UnitScans(value[0], tail, word);
    }
  }

  lemma BodyText(value: string, rest: string)
    requires value != ""
    ensures ReplaceQuotes(value) + ("'" + rest) ==
            (if value[0] == '\'' then "'\"'\"'" else [value[0]]) + (ReplaceQuotes(value[1..]) + ("'" + rest))
  {
  }

  lemma {:induction false} UnitScans(c: char, tail: string, word: string)
    requires c != '\'' && c != NUL
    ensures Scan([c] + tail, Single, Some(word)) == Scan(tail, Single, Some(word + [c]))
  {
    var all := [c] + tail;
    assert all[1..] == tail;
    Quiet(all, Single, Some(word));
    hide Scan;
  }

  /** Closing the single quotes, one quote in double quotes, and opening them again. */
  lemma {:induction false} QuotedQuote(tail: string, word: string)
    ensures Scan("'\"'\"'" + tail, Single, Some(word)) == Scan(tail, Single, Some(word + ['\'']))
  {
    FiveUnits(tail);
    hide *;
    var s4 := "\"" + ("'" + ("\"" + ("'" + tail)));
    CloseSingle(s4, Some(word));
    OpenDouble("'" + ("\"" + ("'" + tail)), word);
    QuoteInDouble("\"" + ("'" + tail), word);
    CloseDouble("'" + tail, Some(word + ['\'']));
    OpenSingle(tail, word + ['\'']);
  }

  lemma FiveUnits(tail: string)
    ensures "'\"'\"'" + tail == "'" + ("\"" + ("'" + ("\"" + ("'" + tail))))
  {
  }

  lemma {:induction false} CloseSingle(tail: string, word: Option<string>)
    ensures Scan("'" + tail, Single, word) == Scan(tail, Plain, word)
  {
    var all := "'" + tail;
    assert all[1..] == tail;
    hide Scan;
    Quiet(all, Single, word);
  }

  lemma {:induction false} OpenSingle(tail: string, word: string)
    ensures Scan("'" + tail, Plain, Some(word)) == Scan(tail, Single, Some(word))
  {
    var all := "'" + tail;
    assert all[1..] == tail;
    hide Scan;
    Quiet(all, Plain, Some(word));
  }

  lemma {:induction false} OpenDouble(tail: string, word: string)
    ensures Scan("\"" + tail, Plain, Some(word)) == Scan(tail, Double, Some(word))
  {
    var all := "\"" + tail;
    assert all[1..] == tail;
    hide Scan;
    Quiet(all, Plain, Some(word));
  }

  lemma {:induction false} CloseDouble(tail: string, word: Option<string>)
    ensures Scan("\"" + tail, Double, word) == Scan(tail, Plain, word)
  {
    var all := "\"" + tail;
    assert all[1..] == tail;
    hide Scan;
    Quiet(all, Double, word);
  }

  lemma {:induction false} QuoteInDouble(tail: string, word: string)
    ensures Scan("'" + tail, Double, Some(word)) == Scan(tail, Double, Some(word + ['\'']))
  {
    var all := "'" + tail;
    assert all[1..] == tail;
    hide Scan;
    Quiet(all, Double, Some(word));
  }

  /** A quoted value extends the word it stands in by exactly itself, whatever surrounds it. */
  lemma {:induction false} QuoteScans(value: string, rest: string, word: Option<string>)
    requires NUL !in value
    ensures Scan(Quote(value) + rest, Plain, word) == Scan(rest, Plain, Some(Begun(word) + value))
  {
    var body := ReplaceQuotes(value) + ("'" + rest);
    var all := "'" + body;
    assert Quote(value) + rest == all && all[1..] == body;
    hide Scan;
    Quiet(all, Plain, word);
    BodyScans(value, rest, Begun(word));
  }

  lemma {:induction false} ReadableHasNoNul(s: string, mode: Mode, word: Option<string>)
    ensures Scan(s, mode, word).Some? ==> NUL !in s
    decreases |s|
  {
    if s != "" && Step(s, mode, word).Move? {
      var m := Step(s, mode, word);
      ReadableHasNoNul(s[m.taken..], m.mode, m.word);
      assert s == s[..m.taken] + s[m.taken..];
      assert forall i :: 0 <= i < m.taken ==> s[i] != NUL;
    }
  }

  lemma {:induction false} QuoteKeepsNul(value: string)
    requires NUL in value
    ensures NUL in ReplaceQuotes(value) && NUL in Quote(value)
  {
    if value[0] != NUL { QuoteKeepsNul(value[1..]); }
  }

  /** A quoted value on its own is exactly one word, the value; unless it holds a NUL, which no argument can. */
  lemma {:induction false} QuoteRoundTrip(value: string)
    ensures Words(Quote(value)) == Some([value]) <==> NUL !in value
  {
    if NUL in value {
      QuoteKeepsNul(value);
      ReadableHasNoNul(Quote(value), Plain, None);
    } else {
      QuoteScans(value, "", None);
      hide Quote;
      assert Quote(value) + "" == Quote(value) && "" + value == value;
    }
  }

  /** A text of complete words, a blank, and more text: the words of both. */
  lemma {:induction false} ScanThen(a: string, mode: Mode, word: Option<string>, b: string)
    requires Scan(a, mode, word).Some?
    ensures Scan(a + (" " + b), mode, word) ==
            if Words(b).None? then None else Some(Scan(a, mode, word).value + Words(b).value)
    decreases |a|
  {
    if a == "" {
      BlankEnds(word, b);
      assert a + (" " + b) == " " + b;
    } else {
      var m := Step(a, mode, word);
      Unfold(a, mode, word);
      hide *;
      SameStep(a, mode, word, b);
      DropConcat(a, m.taken, " " + b);
      Unfold(a + (" " + b), mode, word);
      ScanThen(a[m.taken..], m.mode, m.word, b);
      if Words(b).Some? { Associates(m.ended, Scan(a[m.taken..], m.mode, m.word).value, Words(b).value); }
    }
  }

  lemma DropConcat(a: string, n: nat, b: string)
    requires n <= |a|
    ensures (a + b)[n..] == a[n..] + b
  {
  }

  lemma {:induction false} BlankEnds(word: Option<string>, b: string)
    ensures Scan(" " + b, Plain, word) == if Words(b).None? then None else Some(Ended(word) + Words(b).value)
  {
    assert (" " + b)[1..] == b;
  }

  lemma Unfold(s: string, mode: Mode, word: Option<string>)
    requires s != "" && Step(s, mode, word).Move?
    ensures var m := Step(s, mode, word);
            var words := Scan(s[m.taken..], m.mode, m.word);
            Scan(s, mode, word) == if words.None? then None else Some(m.ended + words.value)
  {
  }

  lemma Associates(a: seq<string>, b: seq<string>, c: seq<string>)
    ensures a + (b + c) == a + b + c
  {
  }

  lemma {:induction false} SameStep(a: string, mode: Mode, word: Option<string>, b: string)
    requires a != "" && Step(a, mode, word).Move?
    ensures Step(a + (" " + b), mode, word) == Step(a, mode, word)
  {
    var all := a + (" " + b);
    assert all[0] == a[0];
    if |a| == 1 { assert all[1] == ' '; }
  }

  /** Between other complete words, a quoted value is exactly one more word. */
  lemma {:induction false} QuoteEmbedded(before: string, value: string, after: string)
    requires Words(before).Some? && Words(after).Some? && NUL !in value
    ensures Words(before + (" " + (Quote(value) + (" " + after)))) == Some(Words(before).value + ([value] + Words(after).value))
  {
    QuoteRoundTrip(value);
    ScanThen(Quote(value), Plain, None, after);
    ScanThen(before, Plain, None, Quote(value) + (" " + after));
  }

  /** Quoted arguments joined by blanks. */
  function CommandLine(arguments: seq<string>): string {
    if arguments == [] then "" else Quote(arguments[0]) + (" " + CommandLine(arguments[1..]))
  }

  /** A shell reads back exactly the arguments, in order. */
  lemma {:induction false} ArgumentsRoundTrip(arguments: seq<string>)
    requires forall i :: 0 <= i < |arguments| ==> NUL !in arguments[i]
    ensures Words(CommandLine(arguments)) == Some(arguments)
  {
    if arguments != [] {
      ArgumentsRoundTrip(arguments[1..]);
      QuoteRoundTrip(arguments[0]);
      ScanThen(Quote(arguments[0]), Plain, None, CommandLine(arguments[1..]));
      assert arguments == [arguments[0]] + arguments[1..];
    }
  }
}
