/**
 * Splitting one CSV line into fields: commas separate fields except inside
 * double quotes, a doubled quote inside quotes stands for one quote
 * character, and every other quote only toggles the quoted state.
 */
module Csv {

  /** What the scanner produces for the characters it consumes: a field separator or one field character. */
  datatype Tok = Sep | Ch(c: char)

  /**
   * The tokens of `line` from position `i` on, starting in quoted state
   * `inq`.
   */
  function Lex(line: string, i: nat, inq: bool): seq<Tok>
    decreases |line| - i
  {
    if i >= |line| then []
    else if line[i] == '"' then
      if inq && i + 1 < |line| && line[i + 1] == '"' then [Ch('"')] + Lex(line, i + 2, inq)
      else Lex(line, i + 1, !inq)
    else if line[i] == ',' && !inq then [Sep] + Lex(line, i + 1, inq)
    else [Ch(line[i])] + Lex(line, i + 1, inq)
  }

  /** The fields built from `toks`, given fields `out` already closed and the field `cur` still open. */
  function Feed(out: seq<string>, cur: string, toks: seq<Tok>): seq<string>
    decreases |toks|
  {
    if |toks| == 0 then out + [cur]
    else match toks[0]
      case Sep => Feed(out + [cur], "", toks[1..])
      case Ch(c) => Feed(out, cur + [c], toks[1..])
  }

  /** The fields of a token sequence. */
  function Fields(toks: seq<Tok>): seq<string>
  {
    Feed([], "", toks)
  }

  /** The fields of `line`, scanned character by character. */
  method SplitRow(line: string) returns (out: seq<string>)
    ensures out == Fields(Lex(line, 0, false))
    ensures |out| >= 1
  {
    out := [];
    var cur := "";
    var inq := false;
    var i := 0;
    while i < |line|
      invariant 0 <= i <= |line|
      invariant Feed(out, cur, Lex(line, i, inq)) == Fields(Lex(line, 0, false))
      decreases |line| - i
    {
      var c := line[i];
      if c == '"' {
        if inq && i + 1 < |line| && line[i + 1] == '"' {
          cur := cur + ['"'];
          i := i + 1;
        } else {
          inq := !inq;
        }
      } else if c == ',' && !inq {
        out := out + [cur];
        cur := "";
      } else {
        cur := cur + [c];
      }
      i := i + 1;
    }
    out := out + [cur];
    FieldsCount([], "", Lex(line, 0, false));
  }

  // ---------------------------------------------------------------------
  // Field count
  // ---------------------------------------------------------------------

  function CountSep(toks: seq<Tok>): nat
  {
    if |toks| == 0 then 0 else (if toks[0] == Sep then 1 else 0) + CountSep(toks[1..])
  }

  /** There is one field more than there are separators. */
  lemma {:induction false} FieldsCount(out: seq<string>, cur: string, toks: seq<Tok>)
    ensures |Feed(out, cur, toks)| == |out| + 1 + CountSep(toks)
    decreases |toks|
  {
    if |toks| > 0 {
      match toks[0]
      case Sep => FieldsCount(out + [cur], "", toks[1..]);
      case Ch(c) => FieldsCount(out, cur + [c], toks[1..]);
    }
  }

  // ---------------------------------------------------------------------
  // Lines without quotes
  // ---------------------------------------------------------------------

  /** Fields joined by commas. */
  function Join(fs: seq<string>): string
  {
    if |fs| == 0 then ""
    else if |fs| == 1 then fs[0]
    else Join(fs[..|fs| - 1]) + "," + fs[|fs| - 1]
  }

  /** The characters the tokens stand for, with a comma for each separator. */
  function Untok(toks: seq<Tok>): string
  {
    if |toks| == 0 then ""
    else (match toks[0] case Sep => "," case Ch(c) => [c]) + Untok(toks[1..])
  }

  lemma JoinSnoc(fs: seq<string>, x: string)
    ensures Join(fs + [x]) == if |fs| == 0 then x else Join(fs) + "," + x
  {
    assert (fs + [x])[..|fs + [x]| - 1] == fs;
  }

  /** Closing field `cur` and then adding `u` joins like one field holding `cur`, a comma and `u`. */
  lemma JoinSeparator(out: seq<string>, cur: string, u: string)
    ensures Join(out + [cur] + [u]) == Join(out + [cur + "," + u])
  {
    JoinSnoc(out + [cur], u);
    JoinSnoc(out, cur);
    JoinSnoc(out, cur + "," + u);
    if |out| > 0 {
      assert Join(out) + "," + cur + "," + u == Join(out) + "," + (cur + "," + u);
    }
  }

  /** Feeding tokens and joining gives what joining the rendered tokens onto the open field gives. */
  lemma {:induction false} JoinFeed(out: seq<string>, cur: string, toks: seq<Tok>)
    ensures Join(Feed(out, cur, toks)) == Join(out + [cur + Untok(toks)])
    decreases |toks|
  {
    if |toks| == 0 {
      assert cur + Untok(toks) == cur;
    } else {
      match toks[0]
      case Sep =>
        JoinFeed(out + [cur], "", toks[1..]);
        JoinFeedSep(out, cur, toks);
      case Ch(c) =>
        JoinFeed(out, cur + [c], toks[1..]);
        assert cur + [c] + Untok(toks[1..]) == cur + Untok(toks);
    }
  }

  /** The separator case of the join: closing the open field at a comma. */
  lemma JoinFeedSep(out: seq<string>, cur: string, toks: seq<Tok>)
    requires |toks| > 0 && toks[0] == Sep
    requires Join(Feed(out + [cur], "", toks[1..])) == Join(out + [cur] + ["" + Untok(toks[1..])])
    ensures Join(Feed(out, cur, toks)) == Join(out + [cur + Untok(toks)])
  {
    var u := Untok(toks[1..]);
    FeedAtSep(out, cur, toks);
    UntokAtSep(toks);
    EmptyPrefix(u);
    JoinSeparator(out, cur, u);
  }

  lemma FeedAtSep(out: seq<string>, cur: string, toks: seq<Tok>)
    requires |toks| > 0 && toks[0] == Sep
    ensures Feed(out, cur, toks) == Feed(out + [cur], "", toks[1..])
  {
  }

  lemma UntokAtSep(toks: seq<Tok>)
    requires |toks| > 0 && toks[0] == Sep
    ensures Untok(toks) == "," + Untok(toks[1..])
  {
  }

  lemma EmptyPrefix(u: string)
    ensures "" + u == u
  {
  }

  /**
   * Outside quotes, a quote-free line scans to one token per character: a
   * separator for each comma and the character itself for any other.
   */
  lemma {:induction false} LexPlain(line: string, i: nat)
    requires i <= |line|
    requires forall j :: 0 <= j < |line| ==> line[j] != '"'
    ensures |Lex(line, i, false)| == |line| - i
    ensures forall k :: 0 <= k < |line| - i ==>
      Lex(line, i, false)[k] == (if line[i + k] == ',' then Sep else Ch(line[i + k]))
    ensures Untok(Lex(line, i, false)) == line[i..]
    decreases |line| - i
  {
    if i < |line| {
      LexPlain(line, i + 1);
      LexPlainStep(line, i, Lex(line, i + 1, false));
    }
  }

  /** One step of `LexPlain`: the first character's token, then `t`, the tokens of the rest of the line. */
  lemma LexPlainStep(line: string, i: nat, t: seq<Tok>)
    requires i < |line| && line[i] != '"'
    requires t == Lex(line, i + 1, false) && |t| == |line| - (i + 1)
    requires forall k :: 0 <= k < |t| ==> t[k] == (if line[i + 1 + k] == ',' then Sep else Ch(line[i + 1 + k]))
    requires Untok(t) == line[i + 1..]
    ensures |Lex(line, i, false)| == |line| - i
    ensures forall k :: 0 <= k < |line| - i ==>
      Lex(line, i, false)[k] == (if line[i + k] == ',' then Sep else Ch(line[i + k]))
    ensures Untok(Lex(line, i, false)) == line[i..]
  {
    var h := if line[i] == ',' then Sep else Ch(line[i]);
    assert Lex(line, i, false) == [h] + t;
    assert ([h] + t)[1..] == t;
    assert line[i..] == [line[i]] + line[i + 1..];
    forall k | 0 < k < |line| - i
      ensures Lex(line, i, false)[k] == (if line[i + k] == ',' then Sep else Ch(line[i + k]))
    {
      assert Lex(line, i, false)[k] == t[k - 1];
      assert i + k == i + 1 + (k - 1);
    }
  }

  /** Tokens with no field character `c`, fed onto fields without `c`, build only fields without `c`. */
  lemma {:induction false} FeedAvoids(out: seq<string>, cur: string, toks: seq<Tok>, c: char)
    requires forall k :: 0 <= k < |out| ==> c !in out[k]
    requires c !in cur
    requires forall k :: 0 <= k < |toks| ==> toks[k] != Ch(c)
    ensures forall k :: 0 <= k < |Feed(out, cur, toks)| ==> c !in Feed(out, cur, toks)[k]
    decreases |toks|
  {
    if |toks| > 0 {
      assert toks[0] != Ch(c);
      assert forall k :: 0 <= k < |toks| - 1 ==> toks[1..][k] == toks[k + 1];
      match toks[0]
      case Sep =>
        forall k | 0 <= k < |out| + 1
          ensures c !in (out + [cur])[k]
        {
          if k < |out| { assert (out + [cur])[k] == out[k]; }
        }
        FeedAvoids(out + [cur], "", toks[1..], c);
      case Ch(d) =>
        assert c !in cur + [d];
        FeedAvoids(out, cur + [d], toks[1..], c);
    }
  }

  /**
   * Splitting a line without quotes cuts it at every comma: no field holds
   * a comma, and joining the fields with commas gives the line back.
   */
  lemma PlainLineRoundTrip(line: string)
    requires forall j :: 0 <= j < |line| ==> line[j] != '"'
    ensures forall k :: 0 <= k < |Fields(Lex(line, 0, false))| ==> ',' !in Fields(Lex(line, 0, false))[k]
    ensures Join(Fields(Lex(line, 0, false))) == line
  {
    LexPlain(line, 0);
    var toks := Lex(line, 0, false);
    forall k | 0 <= k < |toks|
      ensures toks[k] != Ch(',')
    {
      assert toks[k] == (if line[0 + k] == ',' then Sep else Ch(line[0 + k]));
    }
    FeedAvoids([], "", toks, ',');
    JoinFeed([], "", toks);
    assert line[0..] == line;
  }

  // ---------------------------------------------------------------------
  // Lone quotes
  // ---------------------------------------------------------------------

  /** No two neighbouring characters of `line` are both quotes. */
  predicate NoDoubledQuote(line: string)
  {
    forall j :: 0 <= j < |line| - 1 ==> !(line[j] == '"' && line[j + 1] == '"')
  }

  /** The token `h` in front of tokens that avoid `bad` gives tokens that avoid `bad`, when `h` does. */
  lemma ConsAvoids(h: Tok, rest: seq<Tok>, bad: Tok)
    requires h != bad
    requires forall k :: 0 <= k < |rest| ==> rest[k] != bad
    ensures forall k :: 0 <= k < |[h] + rest| ==> ([h] + rest)[k] != bad
  {
    forall k | 0 <= k < |[h] + rest|
      ensures ([h] + rest)[k] != bad
    {
      if k > 0 { assert ([h] + rest)[k] == rest[k - 1]; }
    }
  }

  /**
   * Without doubled quotes, every quote only toggles the quoted state: the
   * scan yields no quote character, inside quotes or out.
   */
  lemma {:induction false} LexNoQuote(line: string, i: nat, inq: bool)
    requires NoDoubledQuote(line)
    ensures forall k :: 0 <= k < |Lex(line, i, inq)| ==> Lex(line, i, inq)[k] != Ch('"')
    decreases |line| - i
  {
    if i < |line| {
      if line[i] == '"' {
        assert !(inq && i + 1 < |line| && line[i + 1] == '"');
        LexNoQuote(line, i + 1, !inq);
      } else {
        LexNoQuote(line, i + 1, inq);
        var h := if line[i] == ',' && !inq then Sep else Ch(line[i]);
        assert Lex(line, i, inq) == [h] + Lex(line, i + 1, inq);
        ConsAvoids(h, Lex(line, i + 1, inq), Ch('"'));
      }
    }
  }

  /**
   * A quote that is not part of a doubled pair toggles quoting and is never
   * copied: when a line has no doubled quote, no field holds a quote.
   */
  lemma LoneQuotesNeverCopied(line: string)
    requires NoDoubledQuote(line)
    ensures forall k :: 0 <= k < |Fields(Lex(line, 0, false))| ==> '"' !in Fields(Lex(line, 0, false))[k]
  {
    LexNoQuote(line, 0, false);
    FeedAvoids([], "", Lex(line, 0, false), '"');
  }

  /** A stray quote swallows the comma after it: `ab"c,d` is the single field `abc,d`. */
  lemma StrayQuoteExample()
    ensures Fields(Lex("ab\"c,d", 0, false)) == ["abc,d"]
  {
    var line := "ab\"c,d";
    assert Lex(line, 6, true) == [];
    assert Lex(line, 5, true) == [Ch('d')];
    assert Lex(line, 4, true) == [Ch(','), Ch('d')];
    assert Lex(line, 3, true) == [Ch('c'), Ch(','), Ch('d')];
    assert Lex(line, 2, false) == Lex(line, 3, true);
    var toks := [Ch('a'), Ch('b'), Ch('c'), Ch(','), Ch('d')];
    assert Lex(line, 0, false) == toks;
    assert toks[1..][1..][1..][1..] == [Ch('d')] && [Ch('d')][1..] == [];
    assert "" + ['a'] == "a" && "a" + ['b'] == "ab" && "ab" + ['c'] == "abc";
    assert "abc" + [','] == "abc," && "abc," + ['d'] == "abc,d";
    assert Feed([], "", toks) == ["abc,d"];
  }

  // ---------------------------------------------------------------------
  // Field lengths
  // ---------------------------------------------------------------------

  /** The number of characters in all fields together. */
  function TotalLen(fs: seq<string>): nat
  {
    if |fs| == 0 then 0 else TotalLen(fs[..|fs| - 1]) + |fs[|fs| - 1]|
  }

  /** Every token consumes at least one character of the line. */
  lemma {:induction false} LexLength(line: string, i: nat, inq: bool)
    requires i <= |line|
    ensures |Lex(line, i, inq)| <= |line| - i
    decreases |line| - i
  {
    if i < |line| {
      if line[i] == '"' && inq && i + 1 < |line| && line[i + 1] == '"' {
        LexLength(line, i + 2, inq);
      } else if line[i] == '"' {
        LexLength(line, i + 1, !inq);
      } else {
        LexLength(line, i + 1, inq);
      }
    }
  }

  /** Each character token lands in exactly one field, and each separator in none. */
  lemma {:induction false} FeedLength(out: seq<string>, cur: string, toks: seq<Tok>)
    ensures TotalLen(Feed(out, cur, toks)) + CountSep(toks) == TotalLen(out) + |cur| + |toks|
    decreases |toks|
  {
    if |toks| == 0 {
      assert (out + [cur])[..|out|] == out;
    } else {
      match toks[0]
      case Sep =>
        FeedLength(out + [cur], "", toks[1..]);
        assert (out + [cur])[..|out|] == out;
      case Ch(c) =>
        FeedLength(out, cur + [c], toks[1..]);
    }
  }

  /** The fields of a line, with one separator between each two, fit in the line. */
  lemma FieldsFitLine(line: string)
    ensures TotalLen(Fields(Lex(line, 0, false))) + |Fields(Lex(line, 0, false))| <= |line| + 1
  {
    var toks := Lex(line, 0, false);
    LexLength(line, 0, false);
    FeedLength([], "", toks);
    FieldsCount([], "", toks);
  }

  // ---------------------------------------------------------------------
  // Quoted fields
  // ---------------------------------------------------------------------

  /** A field with each quote doubled. */
  function Escape(f: string): string
  {
    if |f| == 0 then "" else (if f[0] == '"' then "\"\"" else [f[0]]) + Escape(f[1..])
  }

  /** A field written in quotes, so that commas and quotes in it survive. */
  function Quote(f: string): string
  {
    "\"" + Escape(f) + "\""
  }

  /** Quoted fields joined by commas. */
  function Render(fs: seq<string>): string
    requires |fs| >= 1
  {
    if |fs| == 1 then Quote(fs[0]) else Quote(fs[0]) + "," + Render(fs[1..])
  }

  function Chars(f: string): seq<Tok>
  {
    if |f| == 0 then [] else [Ch(f[0])] + Chars(f[1..])
  }

  /** Scanning a suffix of a concatenation is scanning the second part. */
  lemma {:induction false} LexShift(a: string, b: string, j: nat, inq: bool)
    requires j <= |b|
    ensures Lex(a + b, |a| + j, inq) == Lex(b, j, inq)
    decreases |b| - j
  {
    if j == |b| {
      assert |a + b| == |a| + j;
    } else if b[j] == '"' && inq && j + 1 < |b| && b[j + 1] == '"' {
      LexShift(a, b, j + 2, inq);
      LexShiftStep(a, b, j, inq, j + 2, inq);
    } else {
      var q := if b[j] == '"' then !inq else inq;
      LexShift(a, b, j + 1, q);
      LexShiftStep(a, b, j, inq, j + 1, q);
    }
  }

  /** One step of `LexShift`: both scans take the same step from position `j` to position `n`. */
  lemma LexShiftStep(a: string, b: string, j: nat, inq: bool, n: nat, q: bool)
    requires j < |b|
    requires n == (if b[j] == '"' && inq && j + 1 < |b| && b[j + 1] == '"' then j + 2 else j + 1)
    requires q == (if b[j] == '"' && n == j + 1 then !inq else inq)
    requires Lex(a + b, |a| + n, q) == Lex(b, n, q)
    ensures Lex(a + b, |a| + j, inq) == Lex(b, j, inq)
  {
    var s, k := a + b, |a| + j;
    assert s[k] == b[j];
    if j + 1 < |b| { assert s[k + 1] == b[j + 1]; }
    var h := if n == j + 2 then [Ch('"')] else if b[j] == '"' then [] else if b[j] == ',' && !inq then [Sep] else [Ch(b[j])];
    assert Lex(s, k, inq) == h + Lex(s, |a| + n, q);
    assert Lex(b, j, inq) == h + Lex(b, n, q);
  }

  /**
   * Inside quotes, an escaped field followed by the closing quote scans to
   * the field's characters, leaving the scanner outside quotes, provided
   * what follows does not start with a quote.
   */
  lemma {:induction false} LexEscaped(f: string, rest: string)
    requires |rest| == 0 || rest[0] != '"'
    ensures Lex(Escape(f) + "\"" + rest, 0, true) == Chars(f) + Lex(rest, 0, false)
    decreases |f|
  {
    if |f| == 0 {
      LexEscapedEnd(f, rest);
    } else {
      LexEscaped(f[1..], rest);
      LexEscapedStep(f, rest);
    }
  }

  /** The closing quote: it leaves the quotes, and the rest scans on its own. */
  lemma LexEscapedEnd(f: string, rest: string)
    requires |f| == 0 && (|rest| == 0 || rest[0] != '"')
    ensures Lex(Escape(f) + "\"" + rest, 0, true) == Chars(f) + Lex(rest, 0, false)
  {
    var s := Escape(f) + "\"" + rest;
    assert s == "\"" + rest;
    assert s[0] == '"';
    if 1 < |s| { assert s[1] == rest[0]; }
    assert Lex(s, 0, true) == Lex(s, 1, false);
    LexShift("\"", rest, 0, false);
    assert Chars(f) == [];
  }

  /** One escaped character: a doubled quote or any other character gives one field character. */
  lemma LexEscapedStep(f: string, rest: string)
    requires |f| > 0
    requires Lex(Escape(f[1..]) + "\"" + rest, 0, true) == Chars(f[1..]) + Lex(rest, 0, false)
    ensures Lex(Escape(f) + "\"" + rest, 0, true) == Chars(f) + Lex(rest, 0, false)
  {
    var tail := Escape(f[1..]) + "\"" + rest;
    var q := if f[0] == '"' then "\"\"" else [f[0]];
    assert Escape(f) == q + Escape(f[1..]);
    StrAssoc(q, Escape(f[1..]), "\"", rest);
    if f[0] == '"' {
      LexDoubledQuote(tail);
    } else {
      LexInnerChar(f[0], tail);
    }
    TokAssoc([Ch(f[0])], Chars(f[1..]), Lex(rest, 0, false));
    assert Chars(f) == [Ch(f[0])] + Chars(f[1..]);
  }

  /** Inside quotes, a doubled quote scans to one quote character. */
  lemma LexDoubledQuote(tail: string)
    ensures Lex("\"\"" + tail, 0, true) == [Ch('"')] + Lex(tail, 0, true)
  {
    var s := "\"\"" + tail;
    assert s[0] == '"' && s[1] == '"';
    assert Lex(s, 0, true) == [Ch('"')] + Lex(s, 2, true);
    LexShift("\"\"", tail, 0, true);
  }

  /** Inside quotes, a character other than a quote scans to itself. */
  lemma LexInnerChar(c: char, tail: string)
    requires c != '"'
    ensures Lex([c] + tail, 0, true) == [Ch(c)] + Lex(tail, 0, true)
  {
    var s := [c] + tail;
    assert s[0] == c;
    assert Lex(s, 0, true) == [Ch(c)] + Lex(s, 1, true);
    LexShift([c], tail, 0, true);
  }

  lemma StrAssoc(a: string, b: string, c: string, d: string)
    ensures (a + b) + c + d == a + (b + c + d)
  {
  }

  lemma TokAssoc(a: seq<Tok>, b: seq<Tok>, c: seq<Tok>)
    ensures a + (b + c) == (a + b) + c
  {
  }

  /** Feeding a field's characters extends the open field by exactly that field. */
  lemma {:induction false} FeedChars(out: seq<string>, cur: string, f: string, rest: seq<Tok>)
    ensures Feed(out, cur, Chars(f) + rest) == Feed(out, cur + f, rest)
    decreases |f|
  {
    if |f| == 0 {
      assert Chars(f) + rest == rest;
      assert cur + f == cur;
    } else {
      CharsCons(f, rest);
      FeedCh(out, cur, f[0], Chars(f[1..]) + rest);
      FeedChars(out, cur + [f[0]], f[1..], rest);
      HeadTail(cur, f);
    }
  }

  lemma CharsCons(f: string, rest: seq<Tok>)
    requires |f| > 0
    ensures Chars(f) + rest == [Ch(f[0])] + (Chars(f[1..]) + rest)
  {
  }

  lemma FeedCh(out: seq<string>, cur: string, c: char, toks: seq<Tok>)
    ensures Feed(out, cur, [Ch(c)] + toks) == Feed(out, cur + [c], toks)
  {
    assert ([Ch(c)] + toks)[1..] == toks;
  }

  lemma HeadTail<T>(cur: seq<T>, f: seq<T>)
    requires |f| > 0
    ensures cur + [f[0]] + f[1..] == cur + f
  {
  }

  lemma ConcatAssoc(a: string, b: string, c: string)
    ensures a + b + c == a + (b + c)
  {
  }

  /** A quoted field followed by anything that does not start with a quote scans to the field's characters, then the rest. */
  lemma QuoteScan(f: string, rest: string)
    requires |rest| == 0 || rest[0] != '"'
    ensures Lex(Quote(f) + rest, 0, false) == Chars(f) + Lex(rest, 0, false)
  {
    var x := Escape(f) + "\"" + rest;
    assert Quote(f) + rest == "\"" + x;
    LexShift("\"", x, 0, true);
    LexEscaped(f, rest);
  }

  /** The scan of a rendered sequence of fields: each field's characters, separated. */
  lemma LexRender(fs: seq<string>)
    requires |fs| >= 1
    ensures |fs| == 1 ==> Lex(Render(fs), 0, false) == Chars(fs[0])
    ensures |fs| > 1 ==> Lex(Render(fs), 0, false) == Chars(fs[0]) + [Sep] + Lex(Render(fs[1..]), 0, false)
  {
    if |fs| == 1 {
      LexRenderLast(fs);
    } else {
      LexRenderFirst(fs);
    }
  }

  /** A single rendered field scans to its characters. */
  lemma LexRenderLast(fs: seq<string>)
    requires |fs| == 1
    ensures Lex(Render(fs), 0, false) == Chars(fs[0])
  {
    assert Render(fs) == Quote(fs[0]) + "";
    QuoteScan(fs[0], "");
    assert Lex("", 0, false) == [];
    assert Chars(fs[0]) + [] == Chars(fs[0]);
  }

  /** The first of several rendered fields scans to its characters and a separator. */
  lemma LexRenderFirst(fs: seq<string>)
    requires |fs| > 1
    ensures Lex(Render(fs), 0, false) == Chars(fs[0]) + [Sep] + Lex(Render(fs[1..]), 0, false)
  {
    var r, q, c := Render(fs[1..]), Quote(fs[0]), Chars(fs[0]);
    var rest := "," + r;
    assert Render(fs) == q + "," + r;
    ConcatAssoc(q, ",", r);
    assert rest[0] == ',';
    QuoteScan(fs[0], rest);
    assert Lex(rest, 0, false) == [Sep] + Lex(rest, 1, false);
    LexShift(",", r, 0, false);
    var l := Lex(r, 0, false);
    TokAssoc(c, [Sep], l);
  }

  /** Feeding the scan of rendered fields closes exactly those fields. */
  lemma {:induction false} FeedRender(out: seq<string>, fs: seq<string>)
    requires |fs| >= 1
    ensures Feed(out, "", Lex(Render(fs), 0, false)) == out + fs
    decreases |fs|
  {
    LexRender(fs);
    if |fs| == 1 {
      FeedChars(out, "", fs[0], []);
      NoMoreToks(Chars(fs[0]));
      EmptyPrefix(fs[0]);
      assert fs == [fs[0]];
    } else {
      var rest := Lex(Render(fs[1..]), 0, false);
      TokAssoc(Chars(fs[0]), [Sep], rest);
      FeedChars(out, "", fs[0], [Sep] + rest);
      EmptyPrefix(fs[0]);
      FeedSep(out, fs[0], rest);
      FeedRender(out + [fs[0]], fs[1..]);
      HeadTail(out, fs);
    }
  }

  lemma NoMoreToks(t: seq<Tok>)
    ensures t + [] == t
  {
  }

  /** A separator closes the open field. */
  lemma FeedSep(out: seq<string>, cur: string, toks: seq<Tok>)
    ensures Feed(out, cur, [Sep] + toks) == Feed(out + [cur], "", toks)
  {
    assert ([Sep] + toks)[1..] == toks;
  }

  /** Any non-empty sequence of fields, written quoted and comma-separated, splits back into the same fields. */
  lemma QuotedRoundTrip(fs: seq<string>)
    requires |fs| >= 1
    ensures Fields(Lex(Render(fs), 0, false)) == fs
  {
    FeedRender([], fs);
  }
}
