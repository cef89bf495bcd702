/** A mask that goes through the lines backwards with one flag, "below an END marker", as its whole state, which is why
    blocks can be masked one after the other; and texts masked together and handed out again. */
module KeyMaterial {
  datatype Option<+T> = None | Some(value: T)

  predicate Digit(c: char) { '0' <= c <= '9' }
  predicate Lower(c: char) { 'a' <= c <= 'z' }
  predicate Base64(c: char) { Digit(c) || Lower(c) || 'A' <= c <= 'Z' || c == '+' || c == '/' }
  predicate Hex(c: char) { Digit(c) || 'a' <= c <= 'f' || 'A' <= c <= 'F' }
  predicate Blank(c: char) { c == ' ' || c == '\t' || c == '\r' || c == '\n' || c == '\U{000B}' || c == '\U{000C}' }

  predicate At(line: string, i: int, part: string) {
    0 <= i <= |line| - |part| && line[i..i + |part|] == part
  }

  predicate Contains(line: string, part: string) {
    exists i :: 0 <= i <= |line| && At(line, i, part)
  }

  function Lead(line: string): (n: nat)
    ensures n <= |line| && (n < |line| ==> !Blank(line[n])) && forall k :: 0 <= k < n ==> Blank(line[k])
  {
    if line != "" && Blank(line[0]) then 1 + Lead(line[1..]) else 0
  }

  function Trimmed(line: string): (r: string)
    ensures r <= line && forall k :: |r| <= k < |line| ==> Blank(line[k])
  {
    if line != "" && Blank(line[|line| - 1]) then Trimmed(line[..|line| - 1]) else line
  }

  function Strip(line: string): string {
    var t := Trimmed(line);
    if Lead(line) <= |t| then t[Lead(line)..] else ""
  }

  /** At least ``least`` base64 characters, padded with at most two "=". */
  predicate Encoded(text: string, least: nat) {
    Padded(text, 0, least) || Padded(text, 1, least) || Padded(text, 2, least)
  }

  predicate Padded(text: string, pad: nat, least: nat) {
    && |text| - pad >= least
    && (forall k :: 0 <= k < |text| - pad ==> Base64(text[k]))
    && (forall k :: |text| - pad <= k < |text| ==> text[k] == '=')
  }

  predicate BodyLine(text: string) {
    Encoded(text, 1)
  }

  /** Too long for an identifier, and neither a digest nor a path. */
  predicate KeyLine(text: string) {
    && Encoded(text, 40)
    && (exists k :: 0 <= k < |text| && !Hex(text[k]))
    && (exists k :: 0 <= k < |text| && !(Lower(text[k]) || Digit(text[k]) || text[k] == '/'))
  }

  /** Where the key body begins that a logger wrote its prefix before, from ``at`` on. */
  function BodyTail(text: string, at: nat): (r: Option<nat>)
    requires at <= |text|
    ensures r.Some? ==> at <= r.value <= |text| && Encoded(text[r.value..], 40)
    decreases |text| - at
  {
    if (at == 0 || !(Base64(text[at - 1]) || text[at - 1] == '=')) && Encoded(text[at..], 40) then Some(at)
    else if at == |text| then None
    else BodyTail(text, at + 1)
  }

  predicate Marker(line: string) { Contains(line, "-----") }
  predicate EndsBlock(line: string) { Contains(line, "-----END ") && !Contains(line, "-----BEGIN ") }

  /** One line, and whether the line above it is still in a block. */
  function MaskLine(line: string, inBlock: bool): (string, bool) {
    var text := Strip(line);
    if Marker(line) then (line, EndsBlock(line))
    else if inBlock && text == "" then (line, true)
    else if inBlock && BodyLine(text) then ("***", true)
    else if inBlock && BodyTail(text, 0).Some? then (Upto(line, Lead(line) + BodyTail(text, 0).value) + "***", true)
    else (if |line| >= 40 && ' ' !in line && KeyLine(text) then "***" else line, false)
  }

  function Upto(line: string, n: nat): string {
    if n <= |line| then line[..n] else line
  }

  /** All lines, the last one first. */
  function Mask(lines: seq<string>, inBlock: bool): (r: (seq<string>, bool))
    ensures |r.0| == |lines|
  {
    if lines == [] then ([], inBlock)
    else
      var last := MaskLine(lines[|lines| - 1], inBlock);
      var rest := Mask(lines[..|lines| - 1], last.1);
      (rest.0 + [last.0], rest.1)
  }

  lemma MaskNothing(open: bool)
    ensures Mask([], open) == ([], open)
  {
  }

  lemma MaskStep(lines: seq<string>, i: nat, open: bool)
    requires i < |lines|
    ensures var last := MaskLine(lines[i], open);
            var rest := Mask(lines[..i], last.1);
            Mask(lines[..i + 1], open) == (rest.0 + [last.0], rest.1)
  {
    hide MaskLine;
    assert lines[..i + 1][..i] == lines[..i];
  }

  method MaskKeyMaterialLines(lines: seq<string>, inBlock: bool) returns (masked: seq<string>, open: bool)
    ensures (masked, open) == Mask(lines, inBlock)
  {
    hide MaskLine, Mask;
    var out := new string[|lines|](i requires 0 <= i < |lines| => lines[i]);
    open := inBlock;
    var i := |lines|;
    assert lines[..i] == lines && out[i..] == [];
    while i > 0
      invariant 0 <= i <= |lines| == out.Length
      invariant out[..i] == lines[..i]
      invariant Mask(lines, inBlock).1 == Mask(lines[..i], open).1
      invariant Mask(lines, inBlock).0 == Mask(lines[..i], open).0 + out[i..]
    {
      i := i - 1;
      MaskStep(lines, i, open);
      assert out[i] == out[..i + 1][i] == lines[i];
      ghost var last := MaskLine(lines[i], open);
      ghost var below := out[i + 1..];
      open := MaskOne(out, i, open);
      assert out[i..] == [last.0] + below;
      assert Mask(lines[..i], open).0 + [last.0] + below == Mask(lines[..i], open).0 + out[i..];
    }
    assert lines[..0] == [] && [] + out[0..] == out[..];
    MaskNothing(open);
    masked := out[..];
  }

  /** How one line changes the flag: BEGIN and any line that cannot be key material clear it, END sets it, a blank keeps it. */
  method MaskOne(out: array<string>, i: nat, inBlock: bool) returns (open: bool)
    requires i < out.Length
    modifies out
    ensures (out[i], open) == MaskLine(old(out[i]), inBlock)
    ensures out[..i] == old(out[..i]) && out[i + 1..] == old(out[i + 1..])
  {
    var line := out[i];
    open := inBlock;
    if Contains(line, "-----") {
      return Contains(line, "-----END ") && !Contains(line, "-----BEGIN ");
    }
    var text := Strip(line);
    if open {
      if text == "" { return; }
      if BodyLine(text) {
        out[i] := "***";
        return;
      }
      var body := BodyTail(text, 0);
      if body.Some? {
        out[i] := Upto(line, Lead(line) + body.value) + "***";
        return;
      }
      open := false;
    }
    if |line| >= 40 && ' ' !in line && KeyLine(text) { out[i] := "***"; }
  }

  // ----- what masking means ------------------------------------------------------------------

  /** A file read backwards block by block, carrying the state, is masked as if it were read whole. */
  lemma {:induction false} BlockByBlock(older: seq<string>, newer: seq<string>, inBlock: bool)
    ensures var n := Mask(newer, inBlock);
            var o := Mask(older, n.1);
            Mask(older + newer, inBlock) == (o.0 + n.0, o.1)
  {
    hide MaskLine;
    if newer == [] {
      assert older + newer == older;
      assert Mask(older, inBlock).0 + [] == Mask(older, inBlock).0;
    } else {
      var rest, last := newer[..|newer| - 1], MaskLine(newer[|newer| - 1], inBlock);
      BlockByBlock(older, rest, last.1);
      assert (older + newer)[..|older + newer| - 1] == older + rest;
      var o := Mask(older, Mask(rest, last.1).1);
      assert o.0 + (Mask(rest, last.1).0 + [last.0]) == o.0 + Mask(rest, last.1).0 + [last.0];
    }
  }

  predicate KeyBody(line: string) {
    !Marker(line) && (Strip(line) == "" || BodyLine(Strip(line)))
  }

  lemma BodyLineIsMasked(line: string)
    requires KeyBody(line)
    ensures MaskLine(line, true) == (if Strip(line) == "" then line else "***", true)
  {
  }

  /** Above an END marker every line of a key body is masked, whether the BEGIN marker is there or not. */
  lemma {:induction false} BodyIsMasked(body: seq<string>, k: nat)
    requires (forall i :: 0 <= i < |body| ==> KeyBody(body[i])) && k < |body|
    ensures Mask(body, true).1 && Mask(body, true).0[k] == if Strip(body[k]) == "" then body[k] else "***"
  {
    hide MaskLine, KeyBody, Strip;
    var n := |body| - 1;
    BodyLineIsMasked(body[n]);
    if n > 0 {
      assert forall i :: 0 <= i < n ==> body[..n][i] == body[i];
      BodyIsMasked(body[..n], if k < n then k else 0);
    } else {
      assert body[..n] == [];
    }
  }

  lemma BodyAboveItsEndIsMasked(body: seq<string>, end: string, k: nat, inBlock: bool)
    requires (forall i :: 0 <= i < |body| ==> KeyBody(body[i])) && k < |body| && EndsBlock(end) && Marker(end)
    ensures Mask(body + [end], inBlock).0[k] == if Strip(body[k]) == "" then body[k] else "***"
  {
    BlockByBlock(body, [end], inBlock);
    assert [end][..0] == [];
    BodyIsMasked(body, k);
  }

  /** A key body begins in the stripped line at ``at``, behind what a logger wrote. */
  predicate BodyFrom(line: string, at: nat) {
    var text := Strip(line);
    at <= |text| && Encoded(text[at..], 40) && (at == 0 || !(Base64(text[at - 1]) || text[at - 1] == '='))
  }

  predicate HasBody(line: string) {
    BodyLine(Strip(line)) || exists at :: 0 <= at <= |Strip(line)| && BodyFrom(line, at)
  }

  /** Key material by itself, wherever it stands. */
  predicate Alone(line: string) {
    |line| >= 40 && ' ' !in line && KeyLine(Strip(line))
  }

  /** Lines of a block: each blank, or with a key body in it. */
  ghost predicate Carried(lines: seq<string>, from: nat, to: nat)
    requires from <= to <= |lines|
  {
    forall i :: from <= i < to ==> !Marker(lines[i]) && (Strip(lines[i]) == "" || HasBody(lines[i]))
  }

  /** Above line ``k`` a block is open: it runs down to its END marker, or past the last line into an open one. */
  ghost predicate InBlock(lines: seq<string>, k: nat, open: bool)
    requires k <= |lines|
  {
    || (open && Carried(lines, k, |lines|))
    || exists j :: k <= j < |lines| && Marker(lines[j]) && EndsBlock(lines[j]) && Carried(lines, k, j)
  }

  /** Of ``line`` only what comes before its key body is shown. */
  predicate Hides(line: string, shown: string) {
    || (shown == "***" && (BodyLine(Strip(line)) || Alone(line)))
    || exists at :: 0 <= at <= |Strip(line)| && BodyFrom(line, at) && shown == Upto(line, Lead(line) + at) + "***"
  }

  lemma {:induction false} TailMeans(line: string, at: nat)
    requires at <= |Strip(line)|
    ensures var r := BodyTail(Strip(line), at);
            if r.Some? then BodyFrom(line, r.value) else forall i :: at <= i <= |Strip(line)| ==> !BodyFrom(line, i)
    decreases |Strip(line)| - at
  {
    hide Strip, Encoded;
    if at < |Strip(line)| { TailMeans(line, at + 1); }
  }

  lemma MaskLineMeans(line: string, open: bool)
    ensures var (shown, above) := MaskLine(line, open);
            && (if !Marker(line) && ((open && HasBody(line)) || Alone(line)) then Hides(line, shown) else shown == line)
            && (above <==> if Marker(line) then EndsBlock(line) else open && (Strip(line) == "" || HasBody(line)))
  {
    hide Strip, BodyTail, Marker, EndsBlock, KeyLine, Lead, Upto, BodyFrom;
    TailMeans(line, 0);
    AloneIsBody(line);
  }

  lemma AloneIsBody(line: string)
    ensures Alone(line) ==> BodyLine(Strip(line))
    ensures HasBody(line) ==> Strip(line) != ""
  {
    hide Strip;
  }

  lemma MaskOneLine(line: string, open: bool)
    ensures Mask([line], open) == ([MaskLine(line, open).0], MaskLine(line, open).1)
  {
    hide MaskLine;
    var masked := MaskLine(line, open);
    assert [line][..0] == [];
    assert Mask([line], open) == (Mask([], masked.1).0 + [masked.0], Mask([], masked.1).1);
    assert [] + [masked.0] == [masked.0];
  }

  /** The state carried out of the lines from ``k`` on says whether a block is open there. */
  lemma {:induction false} OpenMeansInBlock(lines: seq<string>, k: nat, open: bool)
    requires k <= |lines|
    ensures Mask(lines[k..], open).1 <==> InBlock(lines, k, open)
    decreases |lines| - k
  {
    hide MaskLine, Marker, EndsBlock, HasBody, Strip, Mask;
    if k == |lines| {
      assert lines[k..] == [];
      MaskNothing(open);
    } else {
      var line, below := lines[k], lines[k + 1..];
      OpenMeansInBlock(lines, k + 1, open);
      assert lines[k..] == [line] + below;
      BlockByBlock([line], below, open);
      MaskOneLine(line, Mask(below, open).1);
      MaskLineMeans(line, Mask(below, open).1);
      OneFurtherUp(lines, k, open);
    }
  }

  lemma OneFurtherUp(lines: seq<string>, k: nat, open: bool)
    requires k < |lines|
    ensures InBlock(lines, k, open) <==>
            if Marker(lines[k]) then EndsBlock(lines[k]) else InBlock(lines, k + 1, open) && (Strip(lines[k]) == "" || HasBody(lines[k]))
  {
    hide Marker, EndsBlock, HasBody, Strip;
    if Marker(lines[k]) && EndsBlock(lines[k]) { assert Carried(lines, k, k); }
    if InBlock(lines, k + 1, open) && !Marker(lines[k]) && !(open && Carried(lines, k + 1, |lines|)) {
      var j :| k + 1 <= j < |lines| && Marker(lines[j]) && EndsBlock(lines[j]) && Carried(lines, k + 1, j);
      assert Strip(lines[k]) == "" || HasBody(lines[k]) ==> Carried(lines, k, j);
    }
  }

  /** Exactly the key material is masked: a line that is some by itself, and the bodies in the lines of an open block.
      Every other line is shown as it is. */
  lemma MaskedExactly(lines: seq<string>, open: bool, k: nat)
    requires k < |lines|
    ensures var line, shown := lines[k], Mask(lines, open).0[k];
            if !Marker(line) && ((InBlock(lines, k + 1, open) && HasBody(line)) || Alone(line)) then Hides(line, shown) else shown == line
  {
    hide MaskLine, Marker, HasBody, Hides, Alone, InBlock, Mask;
    var line, below := lines[k], lines[k + 1..];
    OpenMeansInBlock(lines, k + 1, open);
    MaskStep(lines, k, Mask(below, open).1);
    MaskLineMeans(line, Mask(below, open).1);
    BlockByBlock(lines[..k + 1], below, open);
    assert lines == lines[..k + 1] + below;
  }

  predicate Shortened(line: string, masked: string) {
    masked == line || exists n :: 0 <= n <= |line| && masked == line[..n] + "***"
  }

  lemma CutShortens(line: string, n: nat)
    requires n <= |line|
    ensures Shortened(line, line) && Shortened(line, line[..n] + "***")
  {
  }

  lemma LineShortens(line: string, inBlock: bool)
    ensures Shortened(line, MaskLine(line, inBlock).0)
  {
    hide Strip, BodyTail, Lead, Shortened;
    assert line[..0] + "***" == "***" && line[..|line|] == line;
    var n := if MaskLine(line, inBlock).0 == "***" || BodyTail(Strip(line), 0).None? then 0 else Lead(line) + BodyTail(Strip(line), 0).value;
    CutShortens(line, if n <= |line| then n else |line|);
  }

  lemma {:induction false} OnlyShortens(lines: seq<string>, inBlock: bool, k: nat)
    requires k < |lines|
    ensures Shortened(lines[k], Mask(lines, inBlock).0[k])
  {
    hide MaskLine, Shortened;
    var n := |lines| - 1;
    LineShortens(lines[n], inBlock);
    if k < n {
      OnlyShortens(lines[..n], MaskLine(lines[n], inBlock).1, k);
    }
  }

  lemma ReachingTheMask(head: string, i: nat, part: string)
    requires At(head + "***", i, part) && part != ""
    ensures i + |part| <= |head| || '*' in part
  {
    if i + |part| > |head| {
      var at := if i < |head| then |head| - i else 0;
      assert part[at] == (head + "***")[i..i + |part|][at];
      assert part[at] in part;
    }
  }

  /** Searching after masking finds nothing the line did not hold. */
  lemma SearchGainsNothing(line: string, masked: string, part: string)
    requires Shortened(line, masked) && Contains(masked, part) && part != "" && '*' !in part
    ensures Contains(line, part)
  {
    if masked != line {
      var n :| 0 <= n <= |line| && masked == line[..n] + "***";
      var i :| 0 <= i <= |masked| && At(masked, i, part);
      ReachingTheMask(line[..n], i, part);
      assert line[i..i + |part|] == masked[i..i + |part|];
      assert At(line, i, part);
    }
  }

  // ----- texts shown line by line ------------------------------------------------------------

  function Newlines(s: string): nat {
    if s == "" then 0 else (if s[0] == '\n' then 1 else 0) + Newlines(s[1..])
  }

  function Split(s: string): (r: seq<string>)
    ensures |r| == Newlines(s) + 1
  {
    if s == "" then [""]
    else
      var rest := Split(s[1..]);
      if s[0] == '\n' then [""] + rest else [[s[0]] + rest[0]] + rest[1..]
  }

  function Join(lines: seq<string>): string {
    if lines == [] then "" else if |lines| == 1 then lines[0] else lines[0] + "\n" + Join(lines[1..])
  }

  predicate OneLine(line: string) {
    '\n' !in line
  }

  lemma {:induction false} SplitIsLines(s: string, k: nat)
    requires k < |Split(s)|
    ensures OneLine(Split(s)[k])
  {
    if s != "" {
      SplitIsLines(s[1..], if s[0] == '\n' && k > 0 then k - 1 else if s[0] == '\n' then 0 else k);
      assert s[0] == '\n' && k > 0 ==> Split(s)[k] == Split(s[1..])[k - 1];
      assert s[0] != '\n' && k > 0 ==> Split(s)[k] == Split(s[1..])[k];
    }
  }

  lemma {:induction false} NewlinesOfBoth(a: string, b: string)
    ensures Newlines(a + b) == Newlines(a) + Newlines(b)
  {
    if a == "" {
      assert a + b == b;
    } else {
      NewlinesOfBoth(a[1..], b);
      assert (a + b)[1..] == a[1..] + b;
    }
  }

  lemma {:induction false} OneLineHasNone(line: string)
    ensures OneLine(line) <==> Newlines(line) == 0
  {
    if line != "" {
      OneLineHasNone(line[1..]);
    }
  }

  /** How many lines the first ``i`` texts take. */
  function Before(texts: seq<string>, i: nat): nat
    requires i <= |texts|
  {
    if i == 0 then 0 else Before(texts, i - 1) + Newlines(texts[i - 1]) + 1
  }

  lemma {:induction false} BeforeGrows(texts: seq<string>, i: nat, j: nat)
    requires i <= j <= |texts|
    ensures Before(texts, i) <= Before(texts, j)
  {
    if i < j {
      BeforeGrows(texts, i, j - 1);
    }
  }

  lemma {:induction false} BeforeOfTail(texts: seq<string>, i: nat)
    requires 0 < |texts| && i < |texts|
    ensures Before(texts, i + 1) == Newlines(texts[0]) + 1 + Before(texts[1..], i)
  {
    if i > 0 {
      BeforeOfTail(texts, i - 1);
    }
  }

  lemma {:induction false} NewlinesOfJoin(texts: seq<string>)
    requires texts != []
    ensures Newlines(Join(texts)) + 1 == Before(texts, |texts|)
  {
    if |texts| > 1 {
      NewlinesOfJoin(texts[1..]);
      BeforeOfTail(texts, |texts| - 1);
      NewlinesOfBoth(texts[0] + "\n", Join(texts[1..]));
      NewlinesOfBoth(texts[0], "\n");
    }
  }

  lemma NewlinesOfLines(lines: seq<string>)
    requires lines != [] && forall k :: 0 <= k < |lines| ==> OneLine(lines[k])
    ensures Newlines(Join(lines)) == |lines| - 1
  {
    NewlinesOfJoin(lines);
    CountOfLines(lines, |lines|);
  }

  lemma {:induction false} CountOfLines(lines: seq<string>, i: nat)
    requires i <= |lines| && forall k :: 0 <= k < |lines| ==> OneLine(lines[k])
    ensures Before(lines, i) == i
  {
    if i > 0 {
      CountOfLines(lines, i - 1);
      OneLineHasNone(lines[i - 1]);
    }
  }

  /** Two functions of which only the number of line ends in the result is known. */
  datatype Rules = Rules(block: string -> string, line: string -> string)
  {
    ghost predicate KeepLines() {
      (forall s :: Newlines(block(s)) == Newlines(s)) && (forall s :: OneLine(s) ==> OneLine(line(s)))
    }
  }

  lemma MaskedStaysOneLine(lines: seq<string>, inBlock: bool, k: nat)
    requires k < |lines| && OneLine(lines[k])
    ensures OneLine(Mask(lines, inBlock).0[k])
  {
    OnlyShortens(lines, inBlock, k);
  }

  method ScrubEach(masked: seq<string>, rules: Rules) returns (lines: seq<string>)
    requires rules.KeepLines() && forall k :: 0 <= k < |masked| ==> OneLine(masked[k])
    ensures |lines| == |masked| && forall k :: 0 <= k < |lines| ==> OneLine(lines[k]) && lines[k] == rules.line(masked[k])
  {
    lines := [];
    while |lines| < |masked|
      invariant |lines| <= |masked| && forall k :: 0 <= k < |lines| ==> OneLine(lines[k]) && lines[k] == rules.line(masked[k])
    {
      lines := lines + [rules.line(masked[|lines|])];
    }
  }

  /** ``text`` is the lines that stand where text ``i`` stood, as many as it had. */
  ghost predicate Takes(texts: seq<string>, lines: seq<string>, i: nat, text: string)
    requires i < |texts|
  {
    && Before(texts, i) <= Before(texts, i + 1) <= |lines|
    && text == Join(lines[Before(texts, i)..Before(texts, i + 1)])
    && Newlines(text) == Newlines(texts[i])
  }

  lemma TakesEachLine(texts: seq<string>, lines: seq<string>, i: nat, text: string, k: nat)
    requires i < |texts| && Takes(texts, lines, i, text) && k <= Newlines(texts[i]) && forall j :: 0 <= j < |lines| ==> OneLine(lines[j])
    ensures |Split(text)| == Newlines(texts[i]) + 1 && LineOf(text, k) == Some(lines[Before(texts, i) + k])
  {
    LineOfJoin(lines[Before(texts, i)..Before(texts, i + 1)], k);
  }

  /** Each text with as many lines as it had, taken in order. */
  ghost predicate Regrouped(texts: seq<string>, lines: seq<string>, out: seq<string>) {
    && |out| <= |texts|
    && forall i :: 0 <= i < |out| ==> Takes(texts, lines, i, out[i])
  }

  method Regroup(texts: seq<string>, lines: seq<string>) returns (out: seq<string>)
    requires Before(texts, |texts|) <= |lines| && forall k :: 0 <= k < |lines| ==> OneLine(lines[k])
    ensures |out| == |texts| && Regrouped(texts, lines, out)
  {
    var at := 0;
    out := [];
    for i := 0 to |texts|
      invariant |out| == i && at == Before(texts, i) && Regrouped(texts, lines, out)
    {
      var count := Newlines(texts[i]) + 1;
      BeforeGrows(texts, i + 1, |texts|);
      var text := Join(lines[at..at + count]);
      NewlinesOfLines(lines[at..at + count]);
      out := out + [text];
      at := at + count;
    }
  }

  /** The texts scrubbed as one, and handed back one for one: each with the newlines it went in with, made of exactly
      its own lines. */
  method ScrubLines(texts: seq<string>, rules: Rules) returns (out: seq<string>)
    requires rules.KeepLines()
    ensures |out| == |texts| && forall i :: 0 <= i < |texts| ==> Newlines(out[i]) == Newlines(texts[i])
    ensures var masked := Mask(Split(rules.block(Join(texts))), false).0;
            && (texts != [] ==> |masked| == Before(texts, |texts|))
            && Regrouped(texts, seq(|masked|, k requires 0 <= k < |masked| => rules.line(masked[k])), out)
  {
    var whole := rules.block(Join(texts));
    var masked, open := MaskKeyMaterialLines(Split(whole), false);
    forall k | 0 <= k < |masked| ensures OneLine(masked[k]) {
      SplitIsLines(whole, k);
      MaskedStaysOneLine(Split(whole), false, k);
    }
    var lines := ScrubEach(masked, rules);
    if texts != [] { NewlinesOfJoin(texts); }
    out := Regroup(texts, lines);
    assert lines == seq(|masked|, k requires 0 <= k < |masked| => rules.line(masked[k]));
  }

  function LineOf(text: string, k: nat): Option<string> {
    if k < |Split(text)| then Some(Split(text)[k]) else None
  }

  lemma {:induction false} LineOfJoin(lines: seq<string>, k: nat)
    requires k < |lines| && forall j :: 0 <= j < |lines| ==> OneLine(lines[j])
    ensures LineOf(Join(lines), k) == Some(lines[k])
  {
    if |lines| == 1 {
      SplitOneLine(lines[0]);
    } else {
      SplitFirst(lines[0], Join(lines[1..]));
      if k > 0 { LineOfJoin(lines[1..], k - 1); }
    }
  }

  lemma {:induction false} SplitOneLine(line: string)
    requires OneLine(line)
    ensures Split(line) == [line]
  {
    if line != "" {
      SplitOneLine(line[1..]);
      assert [line[0]] + line[1..] == line;
      assert [line[1..]][1..] == [];
    }
  }

  lemma {:induction false} SplitFirst(line: string, rest: string)
    requires OneLine(line)
    ensures Split(line + "\n" + rest) == [line] + Split(rest)
  {
    if line == "" {
      assert line + "\n" + rest == "\n" + rest;
      assert ("\n" + rest)[1..] == rest;
    } else {
      SplitFirst(line[1..], rest);
      assert (line + "\n" + rest)[1..] == line[1..] + "\n" + rest;
      assert [line[0]] + line[1..] == line;
    }
  }
}
