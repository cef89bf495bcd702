/** Masking by name in running text: a stack of what is open says how far each value goes, and the result is a rendering of
    the text in which only those stretches are replaced. */
module MaskScanner {
  datatype Option<+T> = None | Some(value: T)

  datatype Span = Span(from: nat, to: nat)

  /** The regular expressions. ``find`` looks from an index on for a known name with its separator, ``known`` whether
      there is one between two indices. */
  datatype Rules = Rules(find: (string, nat) -> Option<Span>, known: (string, nat, nat) -> bool, header: string -> bool,
                         letter: char -> bool, digit: char -> bool)
  {
    /** A match is not empty, as it holds a separator. */
    predicate Named(c: char) {
      letter(c) || digit(c) || c == '_' || c == '.' || c == '-'
    }

    predicate Scheme(c: char) {
      letter(c) || digit(c) || c == '+' || c == '.' || c == '-'
    }

    ghost predicate Matches(text: string) {
      forall at :: 0 <= at <= |text| ==> var m := find(text, at); m.Some? ==> at <= m.value.from < m.value.to <= |text|
    }
  }

  predicate LineEnd(c: char) {
    c == '\n' || c == '\r'
  }

  predicate NotLineEnd(c: char) {
    !LineEnd(c)
  }

  predicate Backslash(c: char) {
    c == '\\'
  }

  predicate Blank(c: char) {
    c == ' ' || c == '\t'
  }

  predicate Quote(c: char) {
    c == '"' || c == '\''
  }

  predicate Opens(c: char) {
    c == '(' || c == '[' || c == '{'
  }

  predicate Closes(c: char, opener: char) {
    (c == ')' && opener == '(') || (c == ']' && opener == '[') || (c == '}' && opener == '{')
  }

  predicate Closing(c: char) {
    c == ')' || c == ']' || c == '}'
  }

  predicate Separates(c: char) {
    c == ' ' || c == '\t' || c == ',' || c == ';'
  }

  /** One line, or what is left of it: no line end before ``stop``, which is one or the end of the text. */
  ghost predicate OneLine(text: string, start: nat, stop: nat) {
    start <= stop <= |text| && (stop == |text| || LineEnd(text[stop])) && forall k :: start <= k < stop ==> !LineEnd(text[k])
  }

  /** Only the innermost opener can be a quote: inside a string nothing opens. */
  ghost predicate WellOpened(stack: seq<char>) {
    && (forall i :: 0 <= i < |stack| - 1 ==> Opens(stack[i]))
    && (stack != [] ==> Opens(stack[|stack| - 1]) || Quote(stack[|stack| - 1]))
  }

  /** The first index from ``at`` on, before ``stop``, whose character is not ``p``. */
  function Past(text: string, at: nat, stop: nat, p: char -> bool): (r: nat)
    requires at <= stop <= |text|
    ensures at <= r <= stop && (r < stop ==> !p(text[r])) && forall k :: at <= k < r ==> p(text[k])
    decreases stop - at
  {
    if at < stop && p(text[at]) then Past(text, at + 1, stop, p) else at
  }

  /** The end of the line, or of the text. */
  function LineStop(text: string, at: nat): (r: nat)
    requires at <= |text|
    ensures OneLine(text, at, r)
  {
    Past(text, at, |text|, NotLineEnd)
  }

  // ----- where a value ends ------------------------------------------------------------------

  /** The stack after reading ``text[at..stop]`` from ``stack``: the fold that ``Track`` computes. Inside a string only its
      quote or a line end pops; outside, a bracket pops its own kind alone, and a line end clears the stack. */
  function Openers(text: string, at: nat, stop: nat, stack: seq<char>): (r: seq<char>)
    requires at <= |text| && stop <= |text| && WellOpened(stack)
    ensures WellOpened(r)
    decreases stop - at
  {
    if at >= stop then stack
    else
      var c := text[at];
      var inner := stack != [] && Quote(stack[|stack| - 1]);
      if inner && c == '\\' then (if at + 2 <= |text| then Openers(text, at + 2, stop, stack) else stack)
      else
        Openers(text, at + 1, stop,
                if inner then (if c == stack[|stack| - 1] || LineEnd(c) then stack[..|stack| - 1] else stack)
                else if LineEnd(c) then []
                else if Quote(c) || Opens(c) then stack + [c]
                else if stack != [] && Closes(c, stack[|stack| - 1]) then stack[..|stack| - 1]
                else stack)
  }

  function PastQuote(text: string, at: nat, stop: nat): (r: nat)
    requires at <= stop <= |text|
    ensures at <= r <= stop
  {
    if at < stop && Quote(text[at]) then at + 1 else at
  }

  function PastBackslashes(text: string, at: nat, stop: nat): (r: nat)
    requires at <= stop <= |text|
    ensures at <= r <= stop
  {
    Past(text, at, stop, Backslash)
  }

  predicate Encoded(text: string, at: nat) {
    at + 3 <= |text| && text[at] == '%' && text[at + 1] == '3' && text[at + 2] in "DAda"
  }

  /** Past an escaped or plain quote, if there is one. */
  function PastEscapedQuote(text: string, at: nat, stop: nat): (r: nat)
    requires at <= stop <= |text|
    ensures at <= r <= stop
  {
    PastQuote(text, PastBackslashes(text, at, stop), stop)
  }

  /** A position after ``start``, or 0: whether a name stands at ``start`` with "=" or ":" after it on its line, and where
      a value would then begin. */
  function PairEnd(text: string, start: nat, stop: nat, rules: Rules): (r: nat)
    requires OneLine(text, start, stop)
    ensures r == 0 || start < r <= stop
  {
    var name := PastEscapedQuote(text, start, stop);
    if name >= stop || !(rules.letter(text[name]) || text[name] == '_') then 0
    else SeparatorEnd(text, PastEscapedQuote(text, Past(text, name, stop, rules.Named), stop), stop)
  }

  function SeparatorEnd(text: string, at: nat, stop: nat): (r: nat)
    requires OneLine(text, at, stop)
    ensures r == 0 || at < r <= stop
  {
    var sep := Past(text, at, stop, Blank);
    if sep < stop && text[sep] in "=:" then sep + 1
    else if Encoded(text, sep) then
      assert !LineEnd(text[sep]) && !LineEnd(text[sep + 1]) && !LineEnd(text[sep + 2]);
      sep + 3
    else 0
  }

  /** Letters or digits up to "://". */
  predicate UrlBegins(text: string, start: nat, stop: nat, rules: Rules)
    requires start <= stop <= |text|
  {
    && start < stop && rules.letter(text[start])
    && var end := Past(text, start, stop, rules.Scheme);
       end + 3 <= |text| && text[end..end + 3] == "://"
  }

  /** A new name behind the separators at ``at``. In a header any pair may still be the value's own, so only a URL or a name
      the rules know counts there. */
  predicate NextBegins(text: string, at: nat, stop: nat, header: bool, rules: Rules)
    requires OneLine(text, at, stop)
  {
    var next := Past(text, at, stop, Separates);
    var after := PairEnd(text, next, stop, rules);
    if header then UrlBegins(text, next, stop, rules) || (after != 0 && rules.known(text, next, after)) else after != 0
  }

  /** An early end at ``at``: the closer of the stack's top, or a separator with another pair behind it. */
  predicate EndsValue(text: string, stack: seq<char>, at: nat, stop: nat, header: bool, rules: Rules)
    requires OneLine(text, at, stop)
  {
    at < stop && ((Separates(text[at]) && NextBegins(text, at, stop, header, rules)) || ClosesTop(stack, text[at]))
  }

  predicate ClosesTop(stack: seq<char>, c: char) {
    stack != [] && var top := stack[|stack| - 1]; Closes(c, top) || (Quote(top) && c == top)
  }

  predicate MaskedAlready(text: string, start: nat, line: nat)
    requires OneLine(text, start, line)
  {
    && start + 3 <= |text| && text[start..start + 3] == "***"
    && (start + 3 >= line || text[start + 3] in " \t,;&\"')]}>")
  }

  /** The opening run at ``start``: one quote, three, or one with its backslashes; empty when the value is bare. */
  function OpeningQuote(text: string, start: nat, stop: nat): (quote: string)
    requires OneLine(text, start, stop)
    ensures start + |quote| <= stop && quote == text[start..start + |quote|]
    ensures quote != "" ==> Quote(quote[|quote| - 1]) && (quote[0] == '\\' || forall k :: 0 <= k < |quote| ==> Quote(quote[k]))
    ensures quote != "" && quote[0] == '\\' ==> forall k :: 0 <= k < |quote| - 1 ==> quote[k] == '\\'
  {
    var at := PastBackslashes(text, start, stop);
    if at >= stop || !Quote(text[at]) then ""
    else if at == start && start + 3 <= |text| && text[start] == text[start + 1] == text[start + 2] then text[start..start + 3]
    else text[start..at + 1]
  }

  /** What closes a value that starts with ``quote``: the same quote, after as many backslashes as it is long beyond one
      character. That is the quote itself if it is plain or escaped; three quotes are not closed by three. */
  function Closer(quote: string): (r: string)
    requires quote != ""
    ensures |r| == |quote| && (|quote| == 1 || quote[0] == '\\' ==> forall k :: 0 <= k < |quote| - 1 ==> r[k] == '\\')
  {
    seq(|quote| - 1, k => '\\') + [quote[|quote| - 1]]
  }

  /** The backslashes right before ``k``, none of them before ``from``. */
  function Run(text: string, from: nat, k: nat): (r: nat)
    requires k <= |text|
  {
    if k <= from || text[k - 1] != '\\' then 0 else Run(text, from, k - 1) + 1
  }

  /** A value that begins at ``from`` after ``quote`` is closed at ``k``: a plain quote by itself unless it is escaped, a
      longer one by its last character after exactly as many backslashes. */
  predicate ClosesQuote(text: string, from: nat, k: nat, quote: string)
    requires k < |text| && quote != ""
  {
    text[k] == quote[|quote| - 1] && if |quote| == 1 then Run(text, from, k) % 2 == 0 else Run(text, from, k) == |quote| - 1
  }

  /** What closes a value is written like the quote that opened it, or as ``Closer`` says for three quotes. */
  lemma ClosedByItsCloser(text: string, from: nat, k: nat, quote: string)
    requires from <= k < |text| && quote != "" && ClosesQuote(text, from, k, quote)
    ensures k + 1 >= from + |quote| && text[k + 1 - |quote|..k + 1] == Closer(quote)
  {
    if |quote| > 1 { RunIsBackslashes(text, from, k); }
  }

  lemma {:induction false} RunIsBackslashes(text: string, from: nat, k: nat)
    requires from <= k <= |text|
    ensures k - Run(text, from, k) >= from && forall j :: k - Run(text, from, k) <= j < k ==> text[j] == '\\'
  {
    if k > from && text[k - 1] == '\\' { RunIsBackslashes(text, from, k - 1); }
  }

  /** Past the first index from ``at`` on that closes the value, or ``stop``. */
  function FirstCloser(text: string, from: nat, at: nat, stop: nat, quote: string): (r: nat)
    requires at <= stop <= |text| && quote != ""
    ensures at <= r <= stop && (at < stop ==> at < r)
    ensures forall k :: at <= k < r - 1 ==> !ClosesQuote(text, from, k, quote)
    ensures r < stop ==> r > 0 && ClosesQuote(text, from, r - 1, quote)
    decreases stop - at
  {
    if at >= stop then stop else if ClosesQuote(text, from, at, quote) then at + 1 else FirstCloser(text, from, at + 1, stop, quote)
  }

  /** Where a scan is in a value: how many brackets the value itself has open there. */
  datatype Place = Place(at: nat, depth: nat)

  /** The next place of a scan: past an escaped character of the string around the name, a string of the value's own, a
      run of separators outside its brackets, or one character. */
  function NextPlace(text: string, stack: seq<char>, p: Place, stop: nat): (r: Place)
    requires p.at < stop <= |text|
    ensures r.at > p.at
  {
    var c := text[p.at];
    if c == '\\' && stack != [] && Quote(stack[|stack| - 1]) then p.(at := p.at + 2)
    else if Quote(c) then p.(at := FirstCloser(text, p.at + 1, p.at + 1, stop, [c]))
    else if Opens(c) then Place(p.at + 1, p.depth + 1)
    else if Closing(c) then Place(p.at + 1, if p.depth > 0 then p.depth - 1 else 0)
    else if p.depth == 0 && Separates(c) then p.(at := Past(text, p.at, stop, Separates))
    else p.(at := p.at + 1)
  }

  /** The first place outside the value's own brackets and strings where something ends it, or ``stop``. */
  function ValueEnd(text: string, stack: seq<char>, p: Place, stop: nat, header: bool, rules: Rules): (r: nat)
    requires OneLine(text, p.at, stop) || (p.at > stop && stop <= |text|)
    ensures r <= stop && (p.at <= stop ==> p.at <= r) && (r < stop ==> OneLine(text, r, stop) && EndsValue(text, stack, r, stop, header, rules))
    decreases stop - p.at
  {
    if p.at >= stop then stop
    else if p.depth == 0 && EndsValue(text, stack, p.at, stop, header, rules) then p.at
    else ValueEnd(text, stack, NextPlace(text, stack, p, stop), stop, header, rules)
  }

  // ----- what ends a value, on the text --------------------------------------------------------

  /** Backslashes and at most one quote behind them. */
  ghost predicate EscapedQuote(text: string, from: nat, to: nat)
    requires to <= |text|
  {
    from <= to && (forall i :: from <= i < to - 1 ==> text[i] == '\\') && (from < to ==> text[to - 1] == '\\' || Quote(text[to - 1]))
  }

  /** A name in ``text[name..after]`` that may be quoted, blanks up to ``sep``, and there "=" or ":", plain or encoded. */
  ghost predicate PairOf(text: string, at: nat, name: nat, after: nat, quoted: nat, sep: nat, stop: nat, rules: Rules)
    requires stop <= |text|
  {
    && at <= name < after <= quoted <= sep < stop
    && EscapedQuote(text, at, name) && (rules.letter(text[name]) || text[name] == '_') && (forall i :: name <= i < after ==> rules.Named(text[i]))
    && EscapedQuote(text, after, quoted) && (forall i :: quoted <= i < sep ==> Blank(text[i]))
    && (text[sep] == '=' || text[sep] == ':' || Encoded(text, sep))
  }

  ghost predicate PairAt(text: string, at: nat, stop: nat, rules: Rules)
    requires stop <= |text|
  {
    exists name, after, quoted, sep :: PairOf(text, at, name, after, quoted, sep, stop, rules)
  }

  ghost predicate UrlAt(text: string, at: nat, stop: nat, rules: Rules)
    requires stop <= |text|
  {
    at < stop && rules.letter(text[at]) && exists end :: at <= end && SchemeTo(text, at, end, rules) && end + 3 <= |text| && text[end..end + 3] == "://"
  }

  ghost predicate SchemeTo(text: string, at: nat, end: nat, rules: Rules) {
    end <= |text| && forall i :: at <= i < end ==> rules.Scheme(text[i])
  }

  /** The letters and digits are none of the characters that mean something here. */
  ghost predicate Apart(rules: Rules) {
    forall c :: rules.letter(c) || rules.digit(c) ==> !Quote(c) && c != '\\' && !Blank(c) && c !in "=:%"
  }

  lemma EscapedQuoteStops(text: string, from: nat, to: nat, stop: nat)
    requires from <= to <= stop <= |text| && EscapedQuote(text, from, to)
    requires to < stop ==> !Quote(text[to]) && text[to] != '\\'
    ensures PastEscapedQuote(text, from, stop) == to
  {
  }

  lemma EscapedQuoteIsPast(text: string, from: nat, stop: nat)
    requires from <= stop <= |text|
    ensures EscapedQuote(text, from, PastEscapedQuote(text, from, stop))
  {
  }

  /** The scan for a name and its separator finds one exactly if one stands there. */
  lemma PairMeans(text: string, at: nat, stop: nat, rules: Rules)
    requires OneLine(text, at, stop)
    ensures PairEnd(text, at, stop, rules) != 0 ==> PairAt(text, at, stop, rules)
    ensures Apart(rules) && PairAt(text, at, stop, rules) ==> PairEnd(text, at, stop, rules) != 0
  {
    hide PastEscapedQuote, EscapedQuote;
    if PairEnd(text, at, stop, rules) != 0 {
      var name := PastEscapedQuote(text, at, stop);
      var after := Past(text, name, stop, rules.Named);
      var quoted := PastEscapedQuote(text, after, stop);
      EscapedQuoteIsPast(text, at, stop);
      EscapedQuoteIsPast(text, after, stop);
      assert PairOf(text, at, name, after, quoted, Past(text, quoted, stop, Blank), stop, rules);
    }
    if Apart(rules) && PairAt(text, at, stop, rules) {
      var name: nat, after: nat, quoted: nat, sep: nat :| PairOf(text, at, name, after, quoted, sep, stop, rules);
      PairIsFound(text, at, name, after, quoted, sep, stop, rules);
    }
  }

  lemma PairIsFound(text: string, at: nat, name: nat, after: nat, quoted: nat, sep: nat, stop: nat, rules: Rules)
    requires OneLine(text, at, stop) && Apart(rules) && PairOf(text, at, name, after, quoted, sep, stop, rules)
    ensures PairEnd(text, at, stop, rules) != 0
  {
    assert text[sep] in "=:%";
    hide PastEscapedQuote, EscapedQuote, Encoded;
    EscapedQuoteStops(text, at, name, stop);
    EscapedQuoteStops(text, after, quoted, stop);
    NameStops(text, after, quoted, rules);
    PastIs(text, name, after, stop, rules.Named);
    PastIs(text, quoted, sep, stop, Blank);
  }

  lemma NameStops(text: string, after: nat, quoted: nat, rules: Rules)
    requires Apart(rules) && after <= quoted < |text| && EscapedQuote(text, after, quoted)
    requires Blank(text[quoted]) || text[quoted] in "=:%"
    ensures !rules.Named(text[after])
  {
  }

  lemma PastIs(text: string, at: nat, to: nat, stop: nat, p: char -> bool)
    requires at <= to < stop <= |text| && !p(text[to]) && forall k :: at <= k < to ==> p(text[k])
    ensures Past(text, at, stop, p) == to
  {
  }

  lemma UrlMeans(text: string, at: nat, stop: nat, rules: Rules)
    requires OneLine(text, at, stop) && UrlBegins(text, at, stop, rules)
    ensures UrlAt(text, at, stop, rules)
  {
    assert SchemeTo(text, at, Past(text, at, stop, rules.Scheme), rules);
  }

  /** Behind the separators that begin at ``at`` stands another name with its separator, or, in a header, that or a URL. */
  ghost predicate AnotherBegins(text: string, at: nat, stop: nat, header: bool, rules: Rules)
    requires stop <= |text|
  {
    exists next :: at < next <= stop && (forall i :: at <= i < next ==> Separates(text[i])) &&
                   (PairAt(text, next, stop, rules) || (header && UrlAt(text, next, stop, rules)))
  }

  /** A value without quotes is cut short only where what is around it closes or where another one begins: a blank, a comma
      or a semicolon alone does not end it, and what stands behind is masked with it. */
  lemma GoesOnToTheLinesEnd(text: string, stack: seq<char>, start: nat, stop: nat, header: bool, rules: Rules)
    requires OneLine(text, start, stop)
    ensures var end := ValueEnd(text, stack, Place(start, 0), stop, header, rules);
            end < stop ==> ClosesTop(stack, text[end]) || (Separates(text[end]) && AnotherBegins(text, end, stop, header, rules))
  {
    var end := ValueEnd(text, stack, Place(start, 0), stop, header, rules);
    if end < stop && !ClosesTop(stack, text[end]) {
      var next := Past(text, end, stop, Separates);
      PairMeans(text, next, stop, rules);
      if UrlBegins(text, next, stop, rules) { UrlMeans(text, next, stop, rules); }
    }
  }

  /** A word is a value that ends at the first separator with a name and its separator behind it. */
  lemma {:induction false} EndsWhereAPairBegins(text: string, stack: seq<char>, start: nat, at: nat, stop: nat, rules: Rules)
    requires OneLine(text, start, stop) && start <= at < stop && Apart(rules)
    requires forall k :: start <= k < at ==> !Separates(text[k]) && !Quote(text[k]) && !Opens(text[k]) && !Closing(text[k]) && text[k] != '\\'
    requires Separates(text[at]) && PairAt(text, Past(text, at, stop, Separates), stop, rules)
    ensures ValueEnd(text, stack, Place(start, 0), stop, false, rules) == at
    decreases at - start
  {
    hide PairAt, PairEnd, UrlBegins;
    if start < at {
      assert !ClosesTop(stack, text[start]);
      assert NextPlace(text, stack, Place(start, 0), stop) == Place(start + 1, 0);
      EndsWhereAPairBegins(text, stack, start + 1, at, stop, rules);
    } else {
      PairMeans(text, Past(text, at, stop, Separates), stop, rules);
    }
  }

  /** Inside brackets of its own nothing ends it. */
  lemma {:induction false} GoesOnInItsBrackets(text: string, stack: seq<char>, p: Place, at: nat, stop: nat, header: bool, rules: Rules)
    requires OneLine(text, p.at, stop) && p.at <= at < stop && p.depth > 0
    requires forall k :: p.at <= k < at ==> !Quote(text[k]) && !Closing(text[k]) && text[k] != '\\'
    ensures ValueEnd(text, stack, p, stop, header, rules) > at
    decreases at - p.at
  {
    hide EndsValue;
    if p.at < at {
      var next := NextPlace(text, stack, p, stop);
      assert next.at == p.at + 1;
      GoesOnInItsBrackets(text, stack, next, at, stop, header, rules);
    }
  }

  lemma QuoteClosesItself(text: string, start: nat, stop: nat)
    requires OneLine(text, start, stop) && OpeningQuote(text, start, stop) != ""
    ensures var quote := OpeningQuote(text, start, stop);
            Closer(quote) == quote <==> |quote| == 1 || quote[0] == '\\'
  {
    var quote := OpeningQuote(text, start, stop);
    if |quote| > 1 && quote[0] != '\\' {
      assert Closer(quote)[0] == '\\';
    }
  }

  /** A line end closes what is open, but inside a string only the string: the brackets around it stay open on the next
      line. */
  lemma LineEndCloses(text: string, at: nat, stack: seq<char>)
    requires at < |text| && LineEnd(text[at]) && WellOpened(stack)
    ensures Openers(text, at, at + 1, stack) == [] <==> |stack| <= 1 || !Quote(stack[|stack| - 1])
  {
  }

  /** Text that opens and closes nothing. */
  lemma {:induction false} NothingOpens(text: string, at: nat, stop: nat, stack: seq<char>)
    requires at <= stop <= |text| && (stack == [] || !Quote(stack[|stack| - 1])) && WellOpened(stack)
    requires forall k :: at <= k < stop ==> !Quote(text[k]) && !Opens(text[k]) && !Closing(text[k]) && !LineEnd(text[k])
    ensures Openers(text, at, stop, stack) == stack
    decreases stop - at
  {
    if at < stop { NothingOpens(text, at + 1, stop, stack); }
  }

  lemma OneOpens(text: string, at: nat, stop: nat, stack: seq<char>)
    requires at < stop <= |text| && (stack == [] || !Quote(stack[|stack| - 1])) && WellOpened(stack)
    requires (Quote(text[at]) || Opens(text[at])) && WellOpened(stack + [text[at]])
    ensures Openers(text, at, stop, stack) == Openers(text, at + 1, stop, stack + [text[at]])
  {
  }

  lemma LineEndsString(text: string, at: nat, stop: nat, stack: seq<char>)
    requires at < stop <= |text| && stack != [] && Quote(stack[|stack| - 1]) && LineEnd(text[at])
    requires WellOpened(stack) && WellOpened(stack[..|stack| - 1])
    ensures Openers(text, at, stop, stack) == Openers(text, at + 1, stop, stack[..|stack| - 1])
  {
  }

  /** So a value can end at a bracket that only an earlier line opened. */
  lemma BracketOfAnEarlierLine()
    ensures var text := "{\"\na=b}c";
            |text| == 8 && LineEnd(text[2]) && Openers(text, 0, 5, []) == ['{'] && ClosesTop(['{'], text[6])
  {
    hide Openers;
    var text := "{\"\na=b}c";
    var outer, inner := ['{'], ['{', '"'];
    assert [] + [text[0]] == outer && outer + [text[1]] == inner && inner[..1] == outer;
    OneOpens(text, 0, 5, []);
    OneOpens(text, 1, 5, outer);
    LineEndsString(text, 2, 5, inner);
    NothingOpens(text, 3, 5, outer);
  }

  // ----- the result --------------------------------------------------------------------------

  /** A name the rules know, and its value: ``text[from..start]`` stays as it is, ``text[start..to]`` becomes ``shown``.
      ``stack``: what is open at the name. */
  datatype Field = Field(from: nat, start: nat, to: nat, shown: string, stack: seq<char>)
  {
    ghost predicate Fits(text: string) {
      from <= start <= to <= |text| && LineEnds(text[start..to]) == LineEnds(shown) == ""
    }

    /** The value is masked to its end and no further: the first quote that closes it; without one, the first place
        outside its own brackets and strings where what is around it closes or the next pair begins; or the line's end. */
    predicate Ends(text: string, header: bool, rules: Rules)
      requires start <= to <= |text|
    {
      var line := LineStop(text, start);
      var quote := OpeningQuote(text, start, line);
      if quote != "" then
        shown == quote + "***" + quote && to == FirstCloser(text, start + |quote|, start + |quote|, line, quote)
      else if MaskedAlready(text, start, line) then
        shown == "***" && to == start + 3
      else
        shown == (if to > start then "***" else "") && to == ValueEnd(text, stack, Place(start, 0), line, header, rules)
    }

    ghost predicate Masks(text: string, rules: Rules) {
      && Fits(text)
      && var m := rules.find(text, from);
         m.Some? && m.value.from <= m.value.to == start && Ends(text, rules.header(text[m.value.from..start]), rules)
    }

    /** The field found after ``at``, where ``before`` was open. */
    ghost predicate Follows(at: nat, before: seq<char>, text: string, rules: Rules) {
      from == at && Masks(text, rules) && WellOpened(before) && stack == Openers(text, at, start, before)
    }
  }

  /** Each field is looked for where the one before it ended. */
  ghost predicate AllFollow(fields: seq<Field>, text: string, rules: Rules) {
    forall i :: 0 <= i < |fields| ==> fields[i].Follows(EndOf(fields[..i]), OpenAt(fields[..i]), text, rules)
  }

  function EndOf(fields: seq<Field>): nat {
    if fields == [] then 0 else fields[|fields| - 1].to
  }

  function OpenAt(fields: seq<Field>): seq<char> {
    if fields == [] then [] else fields[|fields| - 1].stack
  }

  /** The text up to the end of the last field, masked. */
  function Render(fields: seq<Field>, text: string): string {
    if fields == [] then ""
    else
      var f := fields[|fields| - 1];
      Render(fields[..|fields| - 1], text) + (if f.from <= f.start <= |text| then text[f.from..f.start] else "") + f.shown
  }

  function LineEnds(s: string): string {
    if s == "" then "" else (if LineEnd(s[0]) then [s[0]] else "") + LineEnds(s[1..])
  }

  lemma {:induction false} LineEndsOfBoth(a: string, b: string)
    ensures LineEnds(a + b) == LineEnds(a) + LineEnds(b)
  {
    hide LineEnd;
    if a == "" {
      assert a + b == b;
    } else {
      LineEndsOfBoth(a[1..], b);
      assert (a + b)[1..] == a[1..] + b;
    }
  }

  lemma {:induction false} NoLineEnds(s: string)
    requires forall k :: 0 <= k < |s| ==> !LineEnd(s[k])
    ensures LineEnds(s) == ""
  {
    if s != "" {
      NoLineEnds(s[1..]);
    }
  }

  lemma OneLineHasNoEnds(text: string, from: nat, to: nat)
    requires from <= |text| && from <= to <= LineStop(text, from)
    ensures LineEnds(text[from..to]) == ""
  {
    NoLineEnds(text[from..to]);
  }

  /** The fields follow one another. */
  ghost predicate Chained(fields: seq<Field>, text: string) {
    forall i :: 0 <= i < |fields| ==> fields[i].Fits(text) && fields[i].from == EndOf(fields[..i])
  }

  lemma FollowingIsChained(fields: seq<Field>, text: string, rules: Rules)
    requires AllFollow(fields, text, rules)
    ensures Chained(fields, text) && EndOf(fields) <= |text|
  {
    forall i | 0 <= i < |fields| ensures fields[i].Fits(text) && fields[i].from == EndOf(fields[..i]) {
      assert fields[i].Follows(EndOf(fields[..i]), OpenAt(fields[..i]), text, rules);
    }
  }

  /** However the values are cut, the line ends are those of the text, in order: masking moves nothing to another
      line. */
  lemma {:induction false} LineEndsKept(fields: seq<Field>, text: string)
    requires Chained(fields, text)
    ensures EndOf(fields) <= |text| && LineEnds(Render(fields, text)) == LineEnds(text[..EndOf(fields)])
  {
    if fields == [] {
      assert text[..0] == "";
    } else {
      var rest, f := fields[..|fields| - 1], fields[|fields| - 1];
      assert forall i :: 0 <= i < |rest| ==> rest[..i] == fields[..i];
      LineEndsKept(rest, text);
      FieldKeepsLineEnds(Render(rest, text), f, text);
    }
  }

  lemma FieldKeepsLineEnds(head: string, f: Field, text: string)
    requires f.Fits(text) && LineEnds(head) == LineEnds(text[..f.from])
    ensures LineEnds(head + text[f.from..f.start] + f.shown) == LineEnds(text[..f.to])
  {
    hide LineEnds;
    var name := text[f.from..f.start];
    LineEndsOfBoth(head + name, f.shown);
    LineEndsOfBoth(head, name);
    LineEndsOfBoth(text[..f.from] + name, text[f.start..f.to]);
    LineEndsOfBoth(text[..f.from], name);
    assert text[..f.to] == text[..f.from] + name + text[f.start..f.to];
  }

  // ----- the scans ---------------------------------------------------------------------------

  /** The loop over the stack equals the fold. */
  method Track(text: string, before: seq<char>, start: nat, stop: nat) returns (stack: seq<char>)
    requires start <= stop <= |text| && WellOpened(before)
    ensures stack == Openers(text, start, stop, before)
  {
    stack := before;
    var at := start;
    while at < stop
      invariant start <= at && WellOpened(stack)
      invariant if at <= |text| then Openers(text, at, stop, stack) == Openers(text, start, stop, before) else stack == Openers(text, start, stop, before)
    {
      var c := text[at];
      if stack != [] && Quote(stack[|stack| - 1]) {
        if c == '\\' {
          at := at + 1;
        } else if c == stack[|stack| - 1] || LineEnd(c) {
          stack := stack[..|stack| - 1];
        }
      } else if LineEnd(c) {
        stack := [];
      } else if Quote(c) || Opens(c) {
        stack := stack + [c];
      } else if stack != [] && Closes(c, stack[|stack| - 1]) {
        stack := stack[..|stack| - 1];
      }
      at := at + 1;
    }
  }

  method Skip(text: string, start: nat, stop: nat, p: char -> bool) returns (at: nat)
    requires start <= stop <= |text|
    ensures at == Past(text, start, stop, p)
  {
    at := start;
    while at < stop && p(text[at])
      invariant start <= at <= stop && Past(text, at, stop, p) == Past(text, start, stop, p)
    {
      at := at + 1;
    }
  }

  /** A string inside a value, taken as a whole. */
  method StringEnd(text: string, start: nat, stop: nat) returns (end: nat)
    requires start < stop <= |text| && Quote(text[start])
    ensures end == FirstCloser(text, start + 1, start + 1, stop, [text[start]])
  {
    end := ClosingPlain(text, start + 1, stop, [text[start]]);
  }

  /** Where a value in quotes ends, at the latest with its line. */
  method ClosingQuote(text: string, start: nat, stop: nat, quote: string) returns (end: nat)
    requires OneLine(text, start, stop) && quote != "" && quote == OpeningQuote(text, start, stop)
    ensures end == FirstCloser(text, start + |quote|, start + |quote|, stop, quote)
  {
    if |quote| == 1 {
      end := ClosingPlain(text, start + |quote|, stop, quote);
    } else {
      end := ClosingEscaped(text, start + |quote|, stop, quote);
    }
  }

  /** A scan for a plain quote at ``at`` has met no closer, and nothing escapes what is there. */
  ghost predicate Open(text: string, start: nat, at: nat, stop: nat, quote: string)
    requires start <= stop <= |text| && |quote| == 1
  {
    if at <= stop then FirstCloser(text, start, at, stop, quote) == FirstCloser(text, start, start, stop, quote) && Run(text, start, at) % 2 == 0
    else FirstCloser(text, start, start, stop, quote) == stop
  }

  lemma PassedEscape(text: string, start: nat, at: nat, stop: nat, quote: string)
    requires start <= at < stop <= |text| && |quote| == 1 && Quote(quote[0]) && Open(text, start, at, stop, quote) && text[at] == '\\'
    ensures Open(text, start, at + 2, stop, quote)
  {
    assert Run(text, start, at + 1) == Run(text, start, at) + 1;
    if at + 2 <= stop && text[at + 1] == '\\' { assert Run(text, start, at + 2) == Run(text, start, at) + 2; }
  }

  method ClosingPlain(text: string, start: nat, stop: nat, quote: string) returns (end: nat)
    requires start <= stop <= |text| && |quote| == 1 && Quote(quote[0])
    ensures end == FirstCloser(text, start, start, stop, quote)
  {
    var at := start;
    while at < stop
      invariant start <= at && Open(text, start, at, stop, quote)
    {
      if text[at] == '\\' {
        PassedEscape(text, start, at, stop, quote);
        at := at + 2;
      } else if text[at] == quote[0] {
        return at + 1;
      } else {
        at := at + 1;
      }
    }
    return stop;
  }

  /** Between ``at`` and ``end`` there are backslashes only: nothing closes there. */
  lemma {:induction false} BackslashesCloseNothing(text: string, from: nat, at: nat, end: nat, stop: nat, quote: string)
    requires from <= at <= end <= stop <= |text| && quote != "" && Quote(quote[|quote| - 1])
    requires forall k :: at <= k < end ==> text[k] == '\\'
    ensures FirstCloser(text, from, at, stop, quote) == FirstCloser(text, from, end, stop, quote)
    ensures Run(text, from, end) == Run(text, from, at) + (end - at)
    decreases end - at
  {
    if at < end { BackslashesCloseNothing(text, from, at + 1, end, stop, quote); }
  }

  method ClosingEscaped(text: string, start: nat, stop: nat, quote: string) returns (end: nat)
    requires start <= stop <= |text| && |quote| > 1 && Quote(quote[|quote| - 1])
    ensures end == FirstCloser(text, start, start, stop, quote)
  {
    var at := start;
    while at < stop
      invariant start <= at <= stop && FirstCloser(text, start, at, stop, quote) == FirstCloser(text, start, start, stop, quote)
      invariant Run(text, start, at) == 0 || at == stop || (!Quote(text[at]) && text[at] != '\\')
    {
      if text[at] != '\\' {
        at := at + 1;
        continue;
      }
      end := Skip(text, at, stop, Backslash);
      BackslashesCloseNothing(text, start, at, end, stop, quote);
      if end - at == |quote| - 1 && end < stop && text[end] == quote[|quote| - 1] { return end + 1; }
      if end < stop && Quote(text[end]) { end := end + 1; }
      at := end;
    }
    return stop;
  }

  method SkipQuote(text: string, start: nat, stop: nat) returns (at: nat)
    requires start <= stop <= |text|
    ensures at == PastEscapedQuote(text, start, stop)
  {
    at := Skip(text, start, stop, Backslash);
    if at < stop && Quote(text[at]) { at := at + 1; }
  }

  /** The loops of ``PairEnd``. */
  method Pair(text: string, start: nat, stop: nat, rules: Rules) returns (after: nat)
    requires OneLine(text, start, stop)
    ensures after == PairEnd(text, start, stop, rules)
  {
    var at := SkipQuote(text, start, stop);
    if at >= stop || !(rules.letter(text[at]) || text[at] == '_') { return 0; }
    at := Skip(text, at, stop, rules.Named);
    at := SkipQuote(text, at, stop);
    after := Separator(text, at, stop);
  }

  method Separator(text: string, start: nat, stop: nat) returns (after: nat)
    requires OneLine(text, start, stop)
    ensures after == SeparatorEnd(text, start, stop)
  {
    var at := Skip(text, start, stop, Blank);
    if at < stop && text[at] in "=:" { return at + 1; }
    return if Encoded(text, at) then at + 3 else 0;
  }

  method Url(text: string, start: nat, stop: nat, rules: Rules) returns (r: bool)
    requires start <= stop <= |text|
    ensures r == UrlBegins(text, start, stop, rules)
  {
    if start >= stop || !rules.letter(text[start]) { return false; }
    var at := Skip(text, start, stop, rules.Scheme);
    return at + 3 <= |text| && text[at..at + 3] == "://";
  }

  /** Where a value without quotes ends, in one pass. */
  method Extent(text: string, stack: seq<char>, start: nat, stop: nat, header: bool, rules: Rules) returns (end: nat)
    requires OneLine(text, start, stop)
    ensures end == ValueEnd(text, stack, Place(start, 0), stop, header, rules)
  {
    hide NextPlace, EndsValue;
    var p := Place(start, 0);
    while p.at < stop
      invariant start <= p.at
      invariant ValueEnd(text, stack, p, stop, header, rules) == ValueEnd(text, stack, Place(start, 0), stop, header, rules)
    {
      var ends, next := OnePlace(text, stack, p, stop, header, rules);
      if ends { return p.at; }
      p := next;
    }
    return stop;
  }

  /** Whether the value ends at ``p``, and where the scan goes on. */
  method OnePlace(text: string, stack: seq<char>, p: Place, stop: nat, header: bool, rules: Rules) returns (ends: bool, next: Place)
    requires OneLine(text, p.at, stop) && p.at < stop
    ensures ends == (p.depth == 0 && EndsValue(text, stack, p.at, stop, header, rules))
    ensures !ends ==> next == NextPlace(text, stack, p, stop)
  {
    hide PairEnd, UrlBegins;
    var c := text[p.at];
    ends, next := false, p.(at := p.at + 1);
    if c == '\\' && stack != [] && Quote(stack[|stack| - 1]) {
      next := p.(at := p.at + 2);
    } else if Quote(c) {
      if p.depth == 0 && stack != [] && stack[|stack| - 1] == c { return true, p; }
      var at := StringEnd(text, p.at, stop);
      next := p.(at := at);
    } else if Opens(c) {
      next := Place(p.at + 1, p.depth + 1);
    } else if Closing(c) {
      if p.depth > 0 {
        next := Place(p.at + 1, p.depth - 1);
      } else if stack != [] && Closes(c, stack[|stack| - 1]) {
        ends := true;
      }
    } else if p.depth == 0 && Separates(c) {
      var at := Skip(text, p.at, stop, Separates);
      ends := Begins(text, at, stop, header, rules);
      next := p.(at := at);
    }
  }

  method Begins(text: string, next: nat, stop: nat, header: bool, rules: Rules) returns (ends: bool)
    requires OneLine(text, next, stop)
    ensures ends == var after := PairEnd(text, next, stop, rules);
                    if header then UrlBegins(text, next, stop, rules) || (after != 0 && rules.known(text, next, after)) else after != 0
  {
    var after := Pair(text, next, stop, rules);
    ends := after != 0;
    if header {
      ends := Url(text, next, stop, rules);
      ends := ends || (after != 0 && rules.known(text, next, after));
    }
  }

  lemma MaskIsShort(quote: string)
    requires forall k :: 0 <= k < |quote| ==> !LineEnd(quote[k])
    ensures LineEnds(quote + "***" + quote) == "" && LineEnds("***") == ""
  {
    hide LineEnds;
    NoLineEnds(quote + "***" + quote);
    NoLineEnds("***");
  }

  /** The value that starts at ``start``, on the line that ends at ``line``. */
  method Value(text: string, from: nat, start: nat, stack: seq<char>, line: nat, header: bool, rules: Rules) returns (field: Field)
    requires from <= start <= |text| && line == LineStop(text, start)
    ensures field == Field(from, start, field.to, field.shown, stack) && field.to <= line
    ensures field.Fits(text) && field.Ends(text, header, rules)
  {
    hide LineEnds, ValueEnd, FirstCloser, EndsValue;
    var end, shown;
    if OpeningQuote(text, start, line) != "" {
      end, shown := QuotedValue(text, start, line);
    } else {
      end, shown := PlainValue(text, start, line, stack, header, rules);
    }
    OneLineHasNoEnds(text, start, end);
    field := Field(from, start, end, shown, stack);
  }

  method QuotedValue(text: string, start: nat, line: nat) returns (end: nat, shown: string)
    requires start <= |text| && line == LineStop(text, start) && OpeningQuote(text, start, line) != ""
    ensures var quote := OpeningQuote(text, start, line);
            shown == quote + "***" + quote && end == FirstCloser(text, start + |quote|, start + |quote|, line, quote)
    ensures LineEnds(shown) == ""
  {
    var quote := OpeningQuote(text, start, line);
    end := ClosingQuote(text, start, line, quote);
    assert forall k :: 0 <= k < |quote| ==> quote[k] == text[start + k];
    MaskIsShort(quote);
    shown := quote + "***" + quote;
  }

  method PlainValue(text: string, start: nat, line: nat, stack: seq<char>, header: bool, rules: Rules) returns (end: nat, shown: string)
    requires start <= |text| && line == LineStop(text, start)
    ensures start <= end <= line && LineEnds(shown) == ""
    ensures if MaskedAlready(text, start, line) then shown == "***" && end == start + 3
            else shown == (if end > start then "***" else "") && end == ValueEnd(text, stack, Place(start, 0), line, header, rules)
  {
    MaskIsShort("");
    if MaskedAlready(text, start, line) {
      assert text[start..start + 3][0] == text[start..start + 3][1] == text[start..start + 3][2] == '*';
      return start + 3, "***";
    }
    end := Extent(text, stack, start, line, header, rules);
    shown := if end > start then "***" else "";
  }

  lemma FollowsFits(f: Field, at: nat, before: seq<char>, text: string, rules: Rules)
    requires f.Follows(at, before, text, rules)
    ensures f.Fits(text) && f.from == at
  {
  }

  lemma Appended(fields: seq<Field>, text: string, rules: Rules, f: Field)
    requires AllFollow(fields, text, rules) && f.Follows(EndOf(fields), OpenAt(fields), text, rules)
    ensures AllFollow(fields + [f], text, rules) && EndOf(fields + [f]) == f.to
    ensures f.from <= f.start <= |text| && Render(fields + [f], text) == Render(fields, text) + text[f.from..f.start] + f.shown
  {
    FollowsFits(f, EndOf(fields), OpenAt(fields), text, rules);
    hide Field.Follows, Render;
    var all := fields + [f];
    assert all[..|fields|] == fields;
    OneMoreRendered(fields, text, f);
    forall i | 0 <= i < |all| ensures all[i].Follows(EndOf(all[..i]), OpenAt(all[..i]), text, rules) {
      assert all[..i] == fields[..i];
    }
  }

  lemma OneMoreRendered(fields: seq<Field>, text: string, f: Field)
    requires f.from <= f.start <= |text|
    ensures Render(fields + [f], text) == Render(fields, text) + text[f.from..f.start] + f.shown
  {
    assert (fields + [f])[..|fields|] == fields;
  }

  /** The next field. ``known``: where the line of ``at`` ends, if that was found for an earlier name; else -1. */
  method Next(text: string, at: nat, name: Span, before: seq<char>, known: int, rules: Rules) returns (field: Field, line: nat)
    requires rules.Matches(text) && at <= |text| && rules.find(text, at) == Some(name) && WellOpened(before)
    requires known == -1 || known == LineStop(text, at)
    ensures field.Follows(at, before, text, rules) && at < field.to <= |text| && WellOpened(field.stack) && field.from == at
    ensures line == LineStop(text, field.to)
  {
    var start := name.to;
    var stack := Track(text, before, at, start);
    if start >= known {
      line := LineEndAfter(text, start);
    } else {
      line := known;
      SameLine(text, at, start);
    }
    field := Value(text, at, start, stack, line, rules.header(text[name.from..start]), rules);
    SameLine(text, start, field.to);
  }

  lemma RestKeepsLineEnds(fields: seq<Field>, text: string, rules: Rules)
    requires AllFollow(fields, text, rules)
    ensures EndOf(fields) <= |text| && LineEnds(Render(fields, text) + text[EndOf(fields)..]) == LineEnds(text)
  {
    hide *;
    FollowingIsChained(fields, text, rules);
    LineEndsKept(fields, text);
    var at := EndOf(fields);
    LineEndsOfBoth(Render(fields, text), text[at..]);
    LineEndsOfBoth(text[..at], text[at..]);
    assert text == text[..at] + text[at..];
  }

  /** ``fields`` cut the text into what is kept, character by character, and what is a mask. */
  method MaskValue(text: string, rules: Rules) returns (out: string, ghost fields: seq<Field>)
    requires rules.Matches(text)
    ensures AllFollow(fields, text, rules) && EndOf(fields) <= |text| && rules.find(text, EndOf(fields)).None?
    ensures out == Render(fields, text) + text[EndOf(fields)..]
    ensures LineEnds(out) == LineEnds(text)
  {
    hide Field.Follows, Field.Masks, Field.Fits, Openers, LineEnds;
    var stack: seq<char>, at: nat, line: int := [], 0, -1;
    var name := rules.find(text, 0);
    out, fields := "", [];
    while name.Some?
      invariant at <= |text| && name == rules.find(text, at) && WellOpened(stack)
      invariant line == -1 || line == LineStop(text, at)
      invariant AllFollow(fields, text, rules) && at == EndOf(fields) && stack == OpenAt(fields)
      invariant out == Render(fields, text)
      decreases |text| - at
    {
      var field;
      field, line := Next(text, at, name.value, stack, line, rules);
      Appended(fields, text, rules, field);
      out, fields := out + text[at..field.start] + field.shown, fields + [field];
      at, stack := field.to, field.stack;
      name := rules.find(text, at);
    }
    RestKeepsLineEnds(fields, text, rules);
    out := out + text[at..];
  }

  method LineEndAfter(text: string, start: nat) returns (line: nat)
    requires start <= |text|
    ensures line == LineStop(text, start)
  {
    line := Skip(text, start, |text|, NotLineEnd);
  }

  lemma SameLine(text: string, from: nat, to: nat)
    requires from <= |text| && from <= to <= LineStop(text, from)
    ensures LineStop(text, to) == LineStop(text, from)
  {
  }
}
