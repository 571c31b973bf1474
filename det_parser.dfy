/** The coordinate text between `<|det|>` and `<|/det|>` is a Python list
    literal of four-integer lists, `[[x1, y1, x2, y2], ...]`, which the service
    turns into values with `eval`. This module is a strict recognizer for
    exactly that shape: non-negative decimal integers, square brackets, commas
    (a trailing comma allowed, as in Python) and blanks, with neither the
    first line nor a blank last line indented, as Python's tokenizer
    demands, and no numeral longer than Python's default limit of 4300
    digits unless it is all zeros. Everything it accepts,
    `eval` reads as the same list. It is narrower than `eval`: signs, floats,
    underscores in numerals, tuples and other expressions are refused. It works in
    two passes, as Python's own reader does: `Tokenize` splits the text into
    tokens, and `ParseTokens` checks the token sequence against the grammar.
    The renderer `ListText` writes the shape the model emits, and the
    round-trip lemma ties the two together. */
module DetParser {
  import opened Results
  import opened Strings

  /** One normalized box, corners (x1, y1) and (x2, y2) in 0..999 units. */
  datatype Quad = Quad(x1: nat, y1: nat, x2: nat, y2: nat)

  datatype Token = Open | Close | Comma | Number(value: nat)

  /** A blank between tokens of a Python expression. */
  predicate IsBlank(c: char) {
    c == ' ' || c == '\t' || c == '\n' || c == '\r' || c == '\U{0C}'
  }

  /** The length of the run of decimal digits at the start of `s`. */
  function DigitRun(s: string): (n: nat)
    ensures n <= |s|
    ensures forall k :: 0 <= k < n ==> IsDigit(s[k])
    ensures n < |s| ==> !IsDigit(s[n])
  {
    if s != [] && IsDigit(s[0]) then 1 + DigitRun(s[1..]) else 0
  }

  /** A digit string is a Python decimal literal unless it has a leading zero
      followed by anything but zeros (`0`, `000` are fine; `07` is not). One
      that does not start with zero may have at most `IntMaxStrDigits`
      digits: a longer one makes the parser raise `SyntaxError`. */
  predicate IsDecimalLiteral(d: string) {
    && |d| > 0 && AllDigits(d)
    && (if d[0] == '0' then forall k :: 0 <= k < |d| ==> d[k] == '0' else |d| <= IntMaxStrDigits)
  }

  /** The token spelled by `lexeme`, if any. */
  function TokenOf(lexeme: string): (r: Option<Token>)
    ensures r.Some? && r.value.Number? <==> IsDecimalLiteral(lexeme)
    ensures r == Some(Open) <==> lexeme == "["
    ensures r == Some(Close) <==> lexeme == "]"
    ensures r == Some(Comma) <==> lexeme == ","
  {
    if lexeme == "[" then Some(Open)
    else if lexeme == "]" then Some(Close)
    else if lexeme == "," then Some(Comma)
    else if IsDecimalLiteral(lexeme) then Some(Number(DigitsValue(lexeme)))
    else None
  }

  /** The length of the lexeme at the start of a non-empty `s`: the whole run
      of digits, or one character. */
  function LexemeLength(s: string): (n: nat)
    requires s != []
    ensures 1 <= n <= |s|
  {
    if IsDigit(s[0]) then DigitRun(s) else 1
  }

  /** The tokens of `s`, blanks dropped; `None` at the first character that
      starts no token. */
  function Tokenize(s: string): (r: Option<seq<Token>>)
    decreases |s|
  {
    if s == [] then Some([])
    else if IsBlank(s[0]) then Tokenize(s[1..])
    else
      var n := LexemeLength(s);
      var tok :- TokenOf(s[..n]);
      var rest :- Tokenize(s[n..]);
      Some([tok] + rest)
  }

  /** A quad `[a, b, c, d]` or `[a, b, c, d,]` starting at token `i`, and the
      index just past it. */
  function QuadAt(t: seq<Token>, i: nat): (r: Option<(Quad, nat)>)
    ensures r.Some? ==> i + 9 <= r.value.1 <= |t|
    ensures r.Some? ==>
      && t[i] == Open && t[i + 1].Number? && t[i + 2] == Comma && t[i + 3].Number? && t[i + 4] == Comma
      && t[i + 5].Number? && t[i + 6] == Comma && t[i + 7].Number?
      && r.value.0 == Quad(t[i + 1].value, t[i + 3].value, t[i + 5].value, t[i + 7].value)
      && ((r.value.1 == i + 9 && t[i + 8] == Close)
          || (r.value.1 == i + 10 && t[i + 8] == Comma && t[i + 9] == Close))
  {
    if i + 9 <= |t| && t[i] == Open
       && t[i + 1].Number? && t[i + 2] == Comma && t[i + 3].Number? && t[i + 4] == Comma
       && t[i + 5].Number? && t[i + 6] == Comma && t[i + 7].Number?
    then
      var q := Quad(t[i + 1].value, t[i + 3].value, t[i + 5].value, t[i + 7].value);
      if t[i + 8] == Close then Some((q, i + 9))
      else if i + 10 <= |t| && t[i + 8] == Comma && t[i + 9] == Close then Some((q, i + 10))
      else None
    else None
  }

  /** The items of a list whose `[` has been read, from token `i` to the
      closing `]`, which must be the last token. */
  function Items(t: seq<Token>, i: nat): (r: Option<seq<Quad>>)
    requires i <= |t|
    decreases |t| - i
  {
    if i < |t| && t[i] == Close then
      if i + 1 == |t| then Some([]) else None
    else
      var p :- QuadAt(t, i);
      var j := p.1;
      if j < |t| && t[j] == Close then
        if j + 1 == |t| then Some([p.0]) else None
      else if j < |t| && t[j] == Comma then
        var rest :- Items(t, j + 1);
        Some([p.0] + rest)
      else None
  }

  /** A token sequence that is exactly one list of quads. */
  function ParseTokens(t: seq<Token>): (r: Option<seq<Quad>>) {
    if |t| > 0 && t[0] == Open then Items(t, 1) else None
  }

  /** The length of the run of blanks at the start of `s`. */
  function BlankRun(s: string): (n: nat)
    ensures n <= |s|
    ensures forall k :: 0 <= k < n ==> IsBlank(s[k])
    ensures n < |s| ==> !IsBlank(s[n])
  {
    if s != [] && IsBlank(s[0]) then 1 + BlankRun(s[1..]) else 0
  }

  /** `eval` skips the spaces and tabs at the very start of its source, but
      then the line holding the first token must not be indented: when a line
      break or a form feed comes before that token and a space or a tab comes
      right before it, the tokenizer raises `IndentationError`. */
  predicate UnexpectedIndent(s: string) {
    var n := BlankRun(s);
    && n > 0 && (s[n - 1] == ' ' || s[n - 1] == '\t')
    && exists k :: 0 <= k < n && (s[k] == '\n' || s[k] == '\r' || s[k] == '\U{0C}')
  }

  /** The length of the run of blanks at the end of `s`. */
  function BlankTail(s: string): (n: nat)
    ensures n <= |s|
    ensures forall k :: |s| - n <= k < |s| ==> IsBlank(s[k])
    ensures n < |s| ==> !IsBlank(s[|s| - n - 1])
  {
    if s != [] && IsBlank(s[|s| - 1]) then 1 + BlankTail(s[..|s| - 1]) else 0
  }

  /** After the last token, a line that holds only spaces or tabs and is not
      ended by a line break is read as an indented line of its own, and the
      tokenizer raises `IndentationError`: the trailing blank run holds a
      `\n` or `\r` and ends in a space or a tab. */
  predicate TrailingIndent(s: string) {
    var n := BlankTail(s);
    && n > 0 && (s[|s| - 1] == ' ' || s[|s| - 1] == '\t')
    && exists k :: |s| - n <= k < |s| && (s[k] == '\n' || s[k] == '\r')
  }

  /** The whole det text: a quad list with nothing but blanks around it,
      neither its first line nor a blank last line indented. */
  function ParseDet(s: string): (r: Option<seq<Quad>>) {
    if UnexpectedIndent(s) || TrailingIndent(s) then None
    else
      var t :- Tokenize(s);
      ParseTokens(t)
  }

  // ---------------------------------------------------------------------------
  // Rendering, the partner of the recognizer
  // ---------------------------------------------------------------------------

  /** The number `n` in decimal, followed by `t`. */
  function NumThen(n: nat, t: string): string {
    NatToString(n) + t
  }

  /** `, ` followed by `t`. */
  function SepThen(t: string): string {
    "," + (" " + t)
  }

  /** The coordinates of a quad, in the order they are written. */
  function Coordinates(q: Quad): seq<nat> {
    [q.x1, q.y1, q.x2, q.y2]
  }

  /** The numbers `ns` separated by `, ` and closed by `]`, followed by `t`. */
  function FieldsThen(ns: seq<nat>, t: string): string
    requires ns != []
    decreases |ns|
  {
    if |ns| == 1 then NumThen(ns[0], "]" + t) else NumThen(ns[0], SepThen(FieldsThen(ns[1..], t)))
  }

  /** The text `[x1, y1, x2, y2]` of `q`, followed by `t`. */
  function QuadThen(q: Quad, t: string): string {
    "[" + FieldsThen(Coordinates(q), t)
  }

  /** The items of a list separated by `, `, and the closing `]`. */
  function ItemsText(qs: seq<Quad>): string
    decreases |qs|
  {
    if qs == [] then "]"
    else QuadThen(qs[0], if |qs| == 1 then "]" else SepThen(ItemsText(qs[1..])))
  }

  /** `[x1, y1, x2, y2]` items separated by `, ` inside brackets. */
  function ListText(qs: seq<Quad>): string {
    "[" + ItemsText(qs)
  }

  /** The tokens of `FieldsThen(ns, t)` before those of `t`. */
  function FieldTokens(ns: seq<nat>): seq<Token>
    requires ns != []
    decreases |ns|
  {
    if |ns| == 1 then [Number(ns[0]), Close] else [Number(ns[0]), Comma] + FieldTokens(ns[1..])
  }

  function QuadTokens(q: Quad): seq<Token> {
    [Open] + FieldTokens(Coordinates(q))
  }

  function ItemsTokens(qs: seq<Quad>): seq<Token>
    decreases |qs|
  {
    if qs == [] then [Close]
    else QuadTokens(qs[0]) + (if |qs| == 1 then [Close] else [Comma] + ItemsTokens(qs[1..]))
  }

  /** A number whose decimal numeral the parser accepts. */
  predicate Readable(n: nat) {
    |NatToString(n)| <= IntMaxStrDigits
  }

  predicate QuadReadable(q: Quad) {
    Readable(q.x1) && Readable(q.y1) && Readable(q.x2) && Readable(q.y2)
  }

  predicate ListReadable(qs: seq<Quad>) {
    forall i :: 0 <= i < |qs| ==> QuadReadable(qs[i])
  }

  /** A number below `10^k`, for `1 <= k <= 4300`, is readable; so is every
      0..999 coordinate of the model's boxes. */
  lemma {:induction false} ReadableBelow(n: nat, k: nat)
    requires 1 <= k <= IntMaxStrDigits
    ensures n < Pow10(k) ==> Readable(n)
    ensures n <= 999 ==> Readable(n)
  {
    if n < Pow10(k) {
      NumeralLength(n, k);
    }
    if n <= 999 {
      assert Pow10(3) == 1000;
      NumeralLength(n, 3);
    }
  }

  // ---------------------------------------------------------------------------
  // Round trip, first pass: the text of a list gives the tokens of the list
  // ---------------------------------------------------------------------------

  lemma {:induction false} TokenizeBlank(c: char, t: string)
    requires IsBlank(c)
    ensures Tokenize([c] + t) == Tokenize(t)
  {
    assert ([c] + t)[1..] == t;
  }

  /** A single-character token in front of `t`. */
  lemma {:induction false} TokenizePunct(c: char, tok: Token, t: string)
    requires (c == '[' && tok == Open) || (c == ']' && tok == Close) || (c == ',' && tok == Comma)
    requires Tokenize(t).Some?
    ensures Tokenize([c] + t) == Some([tok] + Tokenize(t).value)
  {
    var s := [c] + t;
    assert s[..1] == [c];
    assert s[1..] == t;
  }

  /** The digit run of a rendered number stops where the number ends. */
  lemma {:induction false} DigitRunOfRendered(d: string, t: string)
    requires AllDigits(d)
    requires t == [] || !IsDigit(t[0])
    ensures DigitRun(d + t) == |d|
    decreases |d|
  {
    if d != [] {
      assert (d + t)[1..] == d[1..] + t;
      DigitRunOfRendered(d[1..], t);
    } else {
      assert d + t == t;
    }
  }

  /** A rendered number in front of a non-digit is one `Number` token. */
  lemma {:induction false} TokenizeNum(n: nat, t: string)
    requires Readable(n)
    requires t == [] || !IsDigit(t[0])
    requires Tokenize(t).Some?
    ensures Tokenize(NumThen(n, t)) == Some([Number(n)] + Tokenize(t).value)
  {
    var d := NatToString(n);
    var s := d + t;
    DigitRunOfRendered(d, t);
    assert s[0] == d[0];
    assert s[..|d|] == d;
    assert s[|d|..] == t;
    NatToStringValue(n);
    if d[0] == '0' {
      assert |d| == 1;
    }
    assert IsDecimalLiteral(d);
  }

  /** A numeral too long for the parser, in front of a non-digit, spells no
      token. */
  lemma {:induction false} TokenizeLongNum(n: nat, t: string)
    requires !Readable(n)
    requires t == [] || !IsDigit(t[0])
    ensures Tokenize(NumThen(n, t)) == None
  {
    var d := NatToString(n);
    var s := d + t;
    DigitRunOfRendered(d, t);
    assert s[0] == d[0];
    assert s[..|d|] == d;
    assert !IsDecimalLiteral(d);
  }

  /** A single-character token in front of text that does not tokenize. */
  lemma {:induction false} TokenizePunctNone(c: char, t: string)
    requires c == '[' || c == ']' || c == ','
    requires Tokenize(t).None?
    ensures Tokenize([c] + t).None?
  {
    var s := [c] + t;
    assert s[..1] == [c];
    assert s[1..] == t;
  }

  /** A list whose first coordinate has more than 4300 digits is refused, as
      `eval` raises `SyntaxError` on such a numeral. */
  lemma {:induction false} LongCoordinateRefused(q: Quad, rest: seq<Quad>)
    requires !Readable(q.x1)
    ensures ParseDet(ListText([q] + rest)) == None
  {
    var qs := [q] + rest;
    assert qs[0] == q;
    ListTextBrackets(qs);
    NotIndented(ListText(qs));
    var tail := if |qs| == 1 then "]" else SepThen(ItemsText(qs[1..]));
    var f := FieldsThen(Coordinates(q), tail);
    var g := SepThen(FieldsThen(Coordinates(q)[1..], tail));
    assert f == NumThen(q.x1, g);
    TokenizeLongNum(q.x1, g);
    TokenizePunctNone('[', f);
    TokenizePunctNone('[', "[" + f);
    assert ListText(qs) == "[" + ("[" + f);
  }

  lemma {:induction false} TokenizeSep(t: string)
    requires Tokenize(t).Some?
    ensures Tokenize(SepThen(t)) == Some([Comma] + Tokenize(t).value)
  {
    TokenizeBlank(' ', t);
    TokenizePunct(',', Comma, " " + t);
  }

  /** A rendered coordinate and the `, ` after it. */
  lemma {:induction false} TokenizeField(n: nat, t: string)
    requires Readable(n)
    requires Tokenize(t).Some?
    ensures Tokenize(NumThen(n, SepThen(t))) == Some([Number(n), Comma] + Tokenize(t).value)
  {
    TokenizeSep(t);
    TokenizeNum(n, SepThen(t));
    assert [Number(n)] + ([Comma] + Tokenize(t).value) == [Number(n), Comma] + Tokenize(t).value;
  }

  /** The numbers of a quad, each followed by its separator or bracket. */
  lemma {:induction false} TokenizeFields(ns: seq<nat>, t: string)
    requires ns != []
    requires forall k :: 0 <= k < |ns| ==> Readable(ns[k])
    requires Tokenize(t).Some?
    ensures Tokenize(FieldsThen(ns, t)) == Some(FieldTokens(ns) + Tokenize(t).value)
    decreases |ns|
  {
    if |ns| == 1 {
      TokenizeLastField(ns[0], t);
    } else {
      var k := Tokenize(t).value;
      TokenizeFields(ns[1..], t);
      TokenizeField(ns[0], FieldsThen(ns[1..], t));
      assert [Number(ns[0]), Comma] + (FieldTokens(ns[1..]) + k) == FieldTokens(ns) + k;
    }
  }

  /** The last coordinate of a quad and the closing bracket. */
  lemma {:induction false} TokenizeLastField(n: nat, t: string)
    requires Readable(n)
    requires Tokenize(t).Some?
    ensures Tokenize(NumThen(n, "]" + t)) == Some([Number(n), Close] + Tokenize(t).value)
  {
    var k := Tokenize(t).value;
    TokenizePunct(']', Close, t);
    TokenizeNum(n, "]" + t);
    assert [Number(n)] + ([Close] + k) == [Number(n), Close] + k;
  }

  lemma {:induction false} TokenizeQuad(q: Quad, t: string)
    requires QuadReadable(q)
    requires Tokenize(t).Some?
    ensures Tokenize(QuadThen(q, t)) == Some(QuadTokens(q) + Tokenize(t).value)
  {
    TokenizeFields(Coordinates(q), t);
    TokenizePunct('[', Open, FieldsThen(Coordinates(q), t));
    assert [Open] + (FieldTokens(Coordinates(q)) + Tokenize(t).value) == QuadTokens(q) + Tokenize(t).value;
  }

  /** The nine tokens of a quad, written out. */
  lemma {:induction false} QuadTokensSpelled(q: Quad)
    ensures QuadTokens(q) == [Open, Number(q.x1), Comma, Number(q.y1), Comma, Number(q.x2), Comma, Number(q.y2), Close]
  {
    var c := Coordinates(q);
    assert c[1..] == [q.y1, q.x2, q.y2];
    assert c[1..][1..] == [q.x2, q.y2];
    assert c[1..][1..][1..] == [q.y2];
    assert FieldTokens([q.y2]) == [Number(q.y2), Close];
    assert FieldTokens([q.x2, q.y2]) == [Number(q.x2), Comma, Number(q.y2), Close];
    assert FieldTokens([q.y1, q.x2, q.y2]) == [Number(q.y1), Comma, Number(q.x2), Comma, Number(q.y2), Close];
  }

  lemma {:induction false} TokenizeItems(qs: seq<Quad>)
    requires ListReadable(qs)
    ensures Tokenize(ItemsText(qs)) == Some(ItemsTokens(qs))
    decreases |qs|
  {
    TokenizePunct(']', Close, []);
    assert "]" + [] == "]";
    assert [Close] + [] == [Close];
    if qs != [] {
      if |qs| == 1 {
        TokenizeQuad(qs[0], "]");
      } else {
        TokenizeItems(qs[1..]);
        TokenizeSep(ItemsText(qs[1..]));
        TokenizeQuad(qs[0], SepThen(ItemsText(qs[1..])));
      }
    }
  }

  // ---------------------------------------------------------------------------
  // Round trip, second pass: the tokens of a list give the list
  // ---------------------------------------------------------------------------

  lemma {:induction false} QuadAtRendered(t: seq<Token>, i: nat, q: Quad, k: seq<Token>)
    requires i <= |t| && t[i..] == QuadTokens(q) + k
    ensures QuadAt(t, i) == Some((q, i + 9))
    ensures t[i + 9..] == k
  {
    QuadTokensSpelled(q);
    var u := t[i..];
    assert forall j :: 0 <= j < 9 ==> t[i + j] == u[j];
    var v, w := t[i + 9..], u[9..];
    forall x | 0 <= x < |v| ensures v[x] == w[x] {}
  }

  lemma {:induction false} ItemsRendered(t: seq<Token>, i: nat, qs: seq<Quad>)
    requires i <= |t| && t[i..] == ItemsTokens(qs)
    ensures Items(t, i) == Some(qs)
    decreases |qs|
  {
    if qs == [] {
      assert t[i] == t[i..][0];
    } else if |qs| == 1 {
      QuadAtRendered(t, i, qs[0], [Close]);
      assert t[i + 9] == Close;
      assert qs == [qs[0]];
    } else {
      var k := [Comma] + ItemsTokens(qs[1..]);
      QuadAtRendered(t, i, qs[0], k);
      AfterSeparator(t, i + 9, ItemsTokens(qs[1..]));
      ItemsRendered(t, i + 10, qs[1..]);
      ItemsCons(t, i, qs);
    }
  }

  /** A separator at `j`, then the tokens `k`. */
  lemma {:induction false} AfterSeparator(t: seq<Token>, j: nat, k: seq<Token>)
    requires j <= |t| && t[j..] == [Comma] + k
    ensures j < |t| && t[j] == Comma && t[j + 1..] == k
  {
    assert t[j] == t[j..][0];
    assert t[j + 1..] == t[j..][1..];
  }

  /** One quad and a separator before the remaining items. */
  lemma {:induction false} ItemsCons(t: seq<Token>, i: nat, qs: seq<Quad>)
    requires |qs| > 1 && i <= |t|
    requires QuadAt(t, i) == Some((qs[0], i + 9))
    requires i + 9 < |t| && t[i + 9] == Comma
    requires Items(t, i + 10) == Some(qs[1..])
    ensures Items(t, i) == Some(qs)
  {
    assert [qs[0]] + qs[1..] == qs;
  }

  /** Every rendered quad list whose numerals Python reads is read back as
      the same list. */
  lemma {:induction false} ListRoundTrip(qs: seq<Quad>)
    requires ListReadable(qs)
    ensures ParseDet(ListText(qs)) == Some(qs)
  {
    ListTextBrackets(qs);
    NotIndented(ListText(qs));
    TokenizeList(qs);
  }

  /** A text that starts with `[` and ends with `]` is indented neither at
      its start nor at its end. */
  lemma {:induction false} NotIndented(t: string)
    requires |t| >= 2 && t[0] == '[' && t[|t| - 1] == ']'
    ensures !UnexpectedIndent(t) && !TrailingIndent(t)
  {
    assert BlankRun(t) == 0;
    NoTrailingIndent(t);
  }

  /** The tokens of a rendered list give the list back. */
  lemma {:induction false} TokenizeList(qs: seq<Quad>)
    requires ListReadable(qs)
    ensures Tokenize(ListText(qs)).Some? && ParseTokens(Tokenize(ListText(qs)).value) == Some(qs)
  {
    TokenizeItems(qs);
    TokenizePunct('[', Open, ItemsText(qs));
    var t := [Open] + ItemsTokens(qs);
    assert t[1..] == ItemsTokens(qs);
    ItemsRendered(t, 1, qs);
  }

  /** Leading blanks: spaces alone, or a line break alone, are skipped, but a
      line break followed by a space makes the first line indented and the
      text is refused. */
  lemma {:induction false} LeadingBlanks(qs: seq<Quad>)
    requires ListReadable(qs)
    ensures ParseDet(" " + ListText(qs)) == Some(qs)
    ensures ParseDet("\n" + ListText(qs)) == Some(qs)
    ensures ParseDet("\n " + ListText(qs)) == None
  {
    ListRoundTrip(qs);
    ListTextBrackets(qs);
    LeadingCases(ListText(qs));
  }

  lemma {:induction false} LeadingCases(t: string)
    requires |t| >= 2 && t[0] == '[' && t[|t| - 1] == ']'
    ensures ParseDet(" " + t) == ParseDet(t)
    ensures ParseDet("\n" + t) == ParseDet(t)
    ensures ParseDet("\n " + t) == None
  {
    LeadingText(" ", t);
    LeadingText("\n", t);
    LeadingText("\n ", t);
    assert "\n "[0] == '\n';
  }

  /** Putting blanks `u` in front of a bracketed text keeps its tokens; the
      text is then refused exactly when `u` holds a line break or a form feed
      and ends in a space or a tab. */
  lemma {:induction false} LeadingText(u: string, t: string)
    requires |t| >= 2 && t[0] == '[' && t[|t| - 1] == ']'
    requires forall k :: 0 <= k < |u| ==> IsBlank(u[k])
    ensures ParseDet(u + t) == if UnexpectedIndent(u + t) then None else ParseDet(t)
    ensures UnexpectedIndent(u + t) <==>
      |u| > 0 && (u[|u| - 1] == ' ' || u[|u| - 1] == '\t')
      && exists k :: 0 <= k < |u| && (u[k] == '\n' || u[k] == '\r' || u[k] == '\U{0C}')
  {
    TokenizePrependBlanks(u, t);
    BlankRunPrepend(u, t);
    NotIndented(t);
    var s := u + t;
    assert s[|s| - 1] == ']';
    NoTrailingIndent(s);
    forall k | 0 <= k < |u| ensures s[k] == u[k] {}
    if exists k :: 0 <= k < |u| && (u[k] == '\n' || u[k] == '\r' || u[k] == '\U{0C}') {
      var k :| 0 <= k < |u| && (u[k] == '\n' || u[k] == '\r' || u[k] == '\U{0C}');
      assert s[k] == u[k];
    }
  }

  lemma {:induction false} TokenizePrependBlanks(u: string, t: string)
    requires forall k :: 0 <= k < |u| ==> IsBlank(u[k])
    ensures Tokenize(u + t) == Tokenize(t)
    decreases |u|
  {
    if u != [] {
      assert u + t == [u[0]] + (u[1..] + t);
      TokenizeBlank(u[0], u[1..] + t);
      TokenizePrependBlanks(u[1..], t);
    } else {
      assert u + t == t;
    }
  }

  /** The leading blank run of blanks `u` before a text that starts with a
      token is `u`. */
  lemma {:induction false} BlankRunPrepend(u: string, t: string)
    requires |t| > 0 && !IsBlank(t[0])
    requires forall k :: 0 <= k < |u| ==> IsBlank(u[k])
    ensures BlankRun(u + t) == |u|
    decreases |u|
  {
    if u != [] {
      assert (u + t)[1..] == u[1..] + t;
      BlankRunPrepend(u[1..], t);
    } else {
      assert u + t == t;
    }
  }

  /** Trailing blanks: a final line break, a blank line ended by a line
      break, or spaces on the closing line are all skipped, but a line break
      followed by a space at the very end opens an indented line and the text
      is refused. */
  lemma {:induction false} TrailingBlanks(qs: seq<Quad>)
    requires ListReadable(qs)
    ensures ParseDet(ListText(qs) + "\n") == Some(qs)
    ensures ParseDet(ListText(qs) + "  ") == Some(qs)
    ensures ParseDet(ListText(qs) + "\n \n") == Some(qs)
    ensures ParseDet(ListText(qs) + "\n ") == None
  {
    ListRoundTrip(qs);
    ListTextBrackets(qs);
    TrailingCases(ListText(qs));
  }

  lemma {:induction false} TrailingCases(t: string)
    requires |t| >= 2 && t[0] == '[' && t[|t| - 1] == ']'
    ensures ParseDet(t + "\n") == ParseDet(t)
    ensures ParseDet(t + "  ") == ParseDet(t)
    ensures ParseDet(t + "\n \n") == ParseDet(t)
    ensures ParseDet(t + "\n ") == None
  {
    TrailingText(t, "\n");
    TrailingText(t, "  ");
    TrailingText(t, "\n \n");
    TrailingText(t, "\n ");
    assert "\n "[0] == '\n';
  }

  /** A text that ends in a token has no indented last line. */
  lemma {:induction false} NoTrailingIndent(s: string)
    requires |s| > 0 && !IsBlank(s[|s| - 1])
    ensures !TrailingIndent(s)
  {
    assert BlankTail(s) == 0;
  }

  /** Appending blanks `u` to a text that is a bracketed token sequence keeps
      its tokens and its start; the text is then refused exactly when `u`
      holds a `\n` or `\r` and ends in a space or a tab. */
  lemma {:induction false} TrailingText(t: string, u: string)
    requires |t| >= 2 && t[0] == '[' && t[|t| - 1] == ']'
    requires forall k :: 0 <= k < |u| ==> IsBlank(u[k])
    ensures ParseDet(t + u) == if TrailingIndent(t + u) then None else ParseDet(t)
    ensures TrailingIndent(t + u) <==>
      |u| > 0 && (u[|u| - 1] == ' ' || u[|u| - 1] == '\t')
      && exists k :: 0 <= k < |u| && (u[k] == '\n' || u[k] == '\r')
  {
    TokenizeAppendBlanks(t, u);
    assert (t + u)[0] == '[';
    assert BlankRun(t + u) == 0 && BlankRun(t) == 0;
    NoTrailingIndent(t);
    BlankTailAppend(t, u);
    var s := t + u;
    forall k | 0 <= k < |u| ensures s[|t| + k] == u[k] {}
    if exists k :: 0 <= k < |u| && (u[k] == '\n' || u[k] == '\r') {
      var k :| 0 <= k < |u| && (u[k] == '\n' || u[k] == '\r');
      assert s[|t| + k] == u[k];
    }
  }

  /** The trailing blank run of a text ending in a token, with blanks `u`
      appended, is `u`. */
  lemma {:induction false} BlankTailAppend(t: string, u: string)
    requires |t| > 0 && !IsBlank(t[|t| - 1])
    requires forall k :: 0 <= k < |u| ==> IsBlank(u[k])
    ensures BlankTail(t + u) == |u|
    decreases |u|
  {
    if u != [] {
      var v := u[..|u| - 1];
      assert (t + u)[..|t + u| - 1] == t + v;
      BlankTailAppend(t, v);
    } else {
      assert t + u == t;
    }
  }

  /** The digit run of `s` stops before a non-digit appended to it. */
  lemma {:induction false} DigitRunAppend(s: string, u: string)
    requires u == [] || !IsDigit(u[0])
    ensures DigitRun(s + u) == DigitRun(s)
    decreases |s|
  {
    if s == [] {
      assert s + u == u;
    } else if IsDigit(s[0]) {
      assert (s + u)[1..] == s[1..] + u;
      DigitRunAppend(s[1..], u);
    }
  }

  /** Blanks at the end of a text add no tokens. */
  lemma {:induction false} TokenizeAppendBlanks(s: string, u: string)
    requires forall k :: 0 <= k < |u| ==> IsBlank(u[k])
    ensures Tokenize(s + u) == Tokenize(s)
    decreases |s| + |u|
  {
    if s == [] {
      assert s + u == u;
      if u != [] {
        assert u[1..] == [] + u[1..];
        TokenizeAppendBlanks([], u[1..]);
      }
    } else if IsBlank(s[0]) {
      assert (s + u)[1..] == s[1..] + u;
      TokenizeAppendBlanks(s[1..], u);
    } else {
      var n := LexemeLength(s);
      if IsDigit(s[0]) {
        DigitRunAppend(s, u);
      }
      assert (s + u)[..n] == s[..n];
      assert (s + u)[n..] == s[n..] + u;
      TokenizeAppendBlanks(s[n..], u);
    }
  }

  lemma {:induction false} FieldsThenEnds(ns: seq<nat>, t: string)
    requires ns != [] && |t| > 0
    ensures var s := FieldsThen(ns, t); |s| > 0 && s[|s| - 1] == t[|t| - 1]
    decreases |ns|
  {
    if |ns| > 1 {
      FieldsThenEnds(ns[1..], t);
    }
  }

  lemma {:induction false} QuadThenEnds(q: Quad, t: string)
    requires |t| > 0
    ensures var s := QuadThen(q, t); |s| > 0 && s[|s| - 1] == t[|t| - 1]
  {
    FieldsThenEnds(Coordinates(q), t);
  }

  lemma {:induction false} ItemsTextEnds(qs: seq<Quad>)
    ensures var t := ItemsText(qs); |t| > 0 && t[|t| - 1] == ']'
    decreases |qs|
  {
    if |qs| == 1 {
      QuadThenEnds(qs[0], "]");
    } else if qs != [] {
      ItemsTextEnds(qs[1..]);
      QuadThenEnds(qs[0], SepThen(ItemsText(qs[1..])));
    }
  }

  /** A rendered list is bracketed. */
  lemma {:induction false} ListTextBrackets(qs: seq<Quad>)
    ensures var t := ListText(qs); |t| >= 2 && t[0] == '[' && t[|t| - 1] == ']'
  {
    ItemsTextEnds(qs);
  }
}
