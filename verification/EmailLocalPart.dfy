/**
 The local part of an e-mail address: a scanner that splits it into words while it tracks
 quotes and escapes, then a check of each word, against the grammar
 word *("." word) of section 4.4 of RFC 5322.
 */
module EmailLocalPart {
  import opened Schema

  // ------------------------------------------------------------ the grammar

  /** Letters, digits and -_+' */
  predicate Standard(c: char) {
    'a' <= c <= 'z' || 'A' <= c <= 'Z' || '0' <= c <= '9' || c == '-' || c == '_' || c == '+' || c == '\''
  }

  /** The fourteen further characters that an atom may have. */
  predicate Extra(c: char) {
    || c == '!' || c == '#' || c == '$' || c == '%' || c == '&' || c == '*' || c == '/'
    || c == '=' || c == '?' || c == '^' || c == '{' || c == '|' || c == '}' || c == '~'
  }

  predicate AtomChar(c: char) { Standard(c) || Extra(c) }

  predicate IsAtom(w: string) {
    w != "" && forall i :: 0 <= i < |w| ==> AtomChar(w[i])
  }

  /** Characters other than quote and backslash, and backslashes each with the character it escapes. */
  predicate QuotedBody(s: string) {
    if s == "" then true
    else if s[0] == '\\' then |s| >= 2 && QuotedBody(s[2..])
    else s[0] != '"' && QuotedBody(s[1..])
  }

  predicate IsQuoted(w: string) {
    |w| >= 2 && w[0] == '"' && w[|w| - 1] == '"' && QuotedBody(w[1..|w| - 1])
  }

  predicate IsWord(w: string) { IsAtom(w) || IsQuoted(w) }

  function JoinDots(ws: seq<string>): string {
    if ws == [] then "" else if |ws| == 1 then ws[0] else ws[0] + "." + JoinDots(ws[1..])
  }

  ghost predicate IsSplit(s: string, ws: seq<string>) {
    ws != [] && s == JoinDots(ws) && forall i :: 0 <= i < |ws| ==> IsWord(ws[i])
  }

  ghost predicate IsLocalPart(s: string) {
    exists ws :: IsSplit(s, ws)
  }

  predicate PlainWord(w: string) {
    forall i :: 0 <= i < |w| ==> Standard(w[i])
  }

  // ------------------------------------------------------------ the first pass

  datatype Mode = Mode(inQuotes: bool, escaped: bool)
  const CLEAN := Mode(false, false)

  /** None for a backslash outside quotes. */
  function Next(m: Mode, c: char): Option<Mode> {
    if m.escaped then Some(m.(escaped := false))
    else if c == '\\' then if m.inQuotes then Some(m.(escaped := true)) else None
    else if c == '"' then Some(m.(inQuotes := !m.inQuotes))
    else Some(m)
  }

  predicate Splits(m: Mode, c: char) {
    !m.escaped && c == '.' && !m.inQuotes
  }

  function Prepend(w: string, ws: Option<seq<string>>): Option<seq<string>> {
    if ws.Some? then Some([w] + ws.value) else None
  }

  /** The words of what is left, when `current` is the word begun so far. */
  function Words(s: string, m: Mode, current: string): Option<seq<string>>
    decreases |s|
  {
    if s == "" then if m == CLEAN then Some([current]) else None
    else
      match Next(m, s[0])
      case None => None
      case Some(m') =>
        if Splits(m, s[0]) then Prepend(current, Words(s[1..], m', ""))
        else Words(s[1..], m', current + [s[0]])
  }

  function PrependAll(ws: seq<string>, rest: Option<seq<string>>): Option<seq<string>> {
    if rest.Some? then Some(ws + rest.value) else None
  }

  method SplitWords(s: string) returns (r: Option<seq<string>>)
    ensures r == Words(s, CLEAN, "")
  {
    var words: seq<string>, current := [], "";
    var inQuotes, escaped := false, false;
    assert s[0..] == s && forall ws: seq<string> :: [] + ws == ws;
    for i := 0 to |s|
      invariant PrependAll(words, Words(s[i..], Mode(inQuotes, escaped), current)) == Words(s, CLEAN, "")
    {
      var c := s[i];
      assert s[i..][0] == c && s[i..][1..] == s[i + 1..];
      if escaped {
        current := current + [c];
        escaped := false;
      } else if c == '\\' {
        if !inQuotes {
          return None;
        }
        current := current + [c];
        escaped := true;
      } else if c == '"' {
        inQuotes := !inQuotes;
        current := current + [c];
      } else if c == '.' && !inQuotes {
        PrependMore(words, current, Words(s[i + 1..], CLEAN, ""));
        words := words + [current];
        current := "";
      } else {
        current := current + [c];
      }
    }
    if inQuotes || escaped {
      return None;
    }
    r := Some(words + [current]);
  }

  lemma PrependMore(ws: seq<string>, w: string, rest: Option<seq<string>>)
    ensures PrependAll(ws, Prepend(w, rest)) == PrependAll(ws + [w], rest)
  {
    if rest.Some? {
      assert ws + ([w] + rest.value) == ws + [w] + rest.value;
    }
  }

  // ------------------------------------------------------------ the second pass

  /** The escape state after the inside of a quoted word; None at a bare quote. */
  function Inner(s: string, escaped: bool): Option<bool>
    decreases |s|
  {
    if s == "" then Some(escaped)
    else if escaped then Inner(s[1..], false)
    else if s[0] == '\\' then Inner(s[1..], true)
    else if s[0] == '"' then None
    else Inner(s[1..], false)
  }

  /** The check of one word.  An escape left open at the end of a quoted word goes unnoticed here. */
  predicate WordPasses(w: string) {
    w != "" &&
    if w[0] == '"' then |w| >= 2 && w[|w| - 1] == '"' && Inner(w[1..|w| - 1], false).Some?
    else forall i :: 0 <= i < |w| ==> AtomChar(w[i])
  }

  method CheckInner(inner: string) returns (ok: bool)
    ensures ok <==> Inner(inner, false).Some?
  {
    var escaped := false;
    for i := 0 to |inner|
      invariant Inner(inner[i..], escaped).Some? <==> Inner(inner, false).Some?
    {
      assert inner[i..][0] == inner[i] && inner[i..][1..] == inner[i + 1..];
      if escaped {
        escaped := false;
      } else if inner[i] == '\\' {
        escaped := true;
      } else if inner[i] == '"' {
        return false;
      }
    }
    ok := true;
  }

  /** `extra` says that the word goes beyond the standard characters. */
  method CheckWord(w: string) returns (ok: bool, extra: bool)
    ensures ok <==> WordPasses(w)
    ensures ok ==> (extra <==> !PlainWord(w))
  {
    extra := false;
    if w == "" {
      return false, false;
    }
    if w[0] == '"' {
      if |w| < 2 || w[|w| - 1] != '"' {
        return false, false;
      }
      ok := CheckInner(w[1..|w| - 1]);
      assert !Standard(w[0]);
      return ok, true;
    }
    for i := 0 to |w|
      invariant forall k :: 0 <= k < i ==> AtomChar(w[k])
      invariant extra <==> exists k :: 0 <= k < i && !Standard(w[k])
    {
      if w[i] == '"' {
        assert !AtomChar(w[i]);
        return false, false;
      }
      if !Standard(w[i]) {
        if !Extra(w[i]) {
          return false, false;
        }
        extra := true;
      }
    }
    ok := true;
  }

  // ------------------------------------------------------------ scanner versus grammar

  function Run(m: Mode, s: string): Option<Mode>
    decreases |s|
  {
    if s == "" then Some(m)
    else match Next(m, s[0])
      case None => None
      case Some(m') => Run(m', s[1..])
  }

  lemma {:induction false} RunAppend(m: Mode, s: string, c: char)
    ensures Run(m, s + [c]) == if Run(m, s).Some? then Next(Run(m, s).value, c) else None
    decreases |s|
  {
    if s == "" {
      assert (s + [c])[1..] == "";
    } else {
      assert (s + [c])[1..] == s[1..] + [c];
      match Next(m, s[0])
      case None =>
      case Some(m') => RunAppend(m', s[1..], c);
    }
  }

  ghost predicate Balanced(w: string) { Run(CLEAN, w) == Some(CLEAN) }

  /** The first pass loses nothing, and every word ends outside quotes and escapes. */
  lemma {:induction false} WordsRejoin(s: string, m: Mode, current: string)
    requires Run(CLEAN, current) == Some(m)
    ensures var ws := Words(s, m, current);
            ws.Some? ==> ws.value != [] && JoinDots(ws.value) == current + s && forall w <- ws.value :: Balanced(w)
    decreases |s|
  {
    if s == "" {
      assert current + s == current;
    } else {
      match Next(m, s[0])
      case None =>
      case Some(m') =>
        if Splits(m, s[0]) {
          WordsRejoin(s[1..], m', "");
          var rest := Words(s[1..], m', "");
          if rest.Some? {
            var ws := [current] + rest.value;
            assert ws[1..] == rest.value;
            assert current + s == current + "." + s[1..];
          }
        } else {
          RunAppend(CLEAN, current, s[0]);
          WordsRejoin(s[1..], m', current + [s[0]]);
          assert current + [s[0]] + s[1..] == current + s;
        }
    }
  }

  /** Inside quotes the two passes track the same escapes. */
  lemma {:induction false} InnerRuns(s: string, escaped: bool)
    requires Inner(s, escaped).Some?
    ensures Run(Mode(true, escaped), s) == Some(Mode(true, Inner(s, escaped).value))
    decreases |s|
  {
    if s != "" {
      InnerRuns(s[1..], !escaped && s[0] == '\\');
    }
  }

  lemma {:induction false} InnerIsBody(s: string)
    ensures Inner(s, false) == Some(false) <==> QuotedBody(s)
    decreases |s|
  {
    if s != "" {
      if s[0] == '\\' {
        if |s| >= 2 {
          assert s[1..][1..] == s[2..];
          InnerIsBody(s[2..]);
        }
      } else {
        InnerIsBody(s[1..]);
      }
    }
  }

  /** A balanced word that passes is a word of the grammar: an escape left open would have
      swallowed the closing quote. */
  lemma PassingIsWord(w: string)
    requires Balanced(w) && WordPasses(w)
    ensures IsWord(w)
  {
    if w[0] == '"' {
      var inner := w[1..|w| - 1];
      InnerRuns(inner, false);
      InnerIsBody(inner);
      assert w == ['"'] + (inner + ['"']);
      assert w[1..] == inner + ['"'];
      RunAppend(Mode(true, false), inner, '"');
    }
  }

  lemma WordIsPassing(w: string)
    requires IsWord(w)
    ensures WordPasses(w)
  {
    if IsQuoted(w) {
      InnerIsBody(w[1..|w| - 1]);
    } else {
      assert AtomChar(w[0]);
    }
  }

  lemma {:induction false} AtomThrough(a: string, rest: string, current: string)
    requires forall i :: 0 <= i < |a| ==> AtomChar(a[i])
    ensures Words(a + rest, CLEAN, current) == Words(rest, CLEAN, current + a)
    decreases |a|
  {
    if a == "" {
      assert a + rest == rest && current + a == current;
    } else {
      assert AtomChar(a[0]);
      assert (a + rest)[1..] == a[1..] + rest;
      AtomThrough(a[1..], rest, current + [a[0]]);
      assert current + [a[0]] + a[1..] == current + a;
    }
  }

  lemma {:induction false} BodyThrough(body: string, rest: string, current: string)
    requires QuotedBody(body)
    ensures Words(body + rest, Mode(true, false), current) == Words(rest, Mode(true, false), current + body)
    decreases |body|
  {
    var q := Mode(true, false);
    if body == "" {
      assert body + rest == rest && current + body == current;
    } else if body[0] == '\\' {
      var s := body + rest;
      assert s[1..][1..] == body[2..] + rest && s[1..][0] == body[1];
      assert Words(s, q, current) == Words(s[1..], Mode(true, true), current + [body[0]]);
      assert Words(s[1..], Mode(true, true), current + [body[0]])
             == Words(s[1..][1..], q, current + [body[0]] + [body[1]]);
      BodyThrough(body[2..], rest, current + [body[0]] + [body[1]]);
      assert current + [body[0]] + [body[1]] + body[2..] == current + body;
    } else {
      assert (body + rest)[1..] == body[1..] + rest;
      BodyThrough(body[1..], rest, current + [body[0]]);
      assert current + [body[0]] + body[1..] == current + body;
    }
  }

  lemma WordThrough(w: string, rest: string)
    requires IsWord(w)
    ensures Words(w + rest, CLEAN, "") == Words(rest, CLEAN, w)
  {
    if IsAtom(w) {
      AtomThrough(w, rest, "");
      assert "" + w == w;
    } else {
      var body := w[1..|w| - 1];
      var after := ['"'] + rest;
      assert w + rest == ['"'] + (body + after);
      assert (w + rest)[1..] == body + after;
      assert Words(w + rest, CLEAN, "") == Words(body + after, Mode(true, false), "" + ['"']);
      BodyThrough(body, after, "" + ['"']);
      assert after[1..] == rest;
      assert "" + ['"'] + body + ['"'] == w;
    }
  }

  /** The first pass recovers the words of the grammar. */
  lemma {:induction false} SplitFound(ws: seq<string>)
    requires ws != [] && forall i :: 0 <= i < |ws| ==> IsWord(ws[i])
    ensures Words(JoinDots(ws), CLEAN, "") == Some(ws)
    decreases |ws|
  {
    if |ws| == 1 {
      WordThrough(ws[0], "");
      assert ws[0] + "" == ws[0] && ws == [ws[0]];
    } else {
      var rest := "." + JoinDots(ws[1..]);
      WordThrough(ws[0], rest);
      assert JoinDots(ws) == ws[0] + rest;
      assert rest[1..] == JoinDots(ws[1..]);
      SplitFound(ws[1..]);
      assert [ws[0]] + ws[1..] == ws;
    }
  }

  /** There is at most one way to read a local part. */
  lemma SplitUnique(s: string, a: seq<string>, b: seq<string>)
    requires IsSplit(s, a) && IsSplit(s, b)
    ensures a == b
  {
    SplitFound(a);
    SplitFound(b);
  }

  /** Accepts exactly the grammar; `extra` asks for the type "email-extra". */
  method ValidateLocalPart(s: string) returns (ok: bool, extra: bool)
    ensures ok <==> IsLocalPart(s)
    ensures ok ==> forall ws :: IsSplit(s, ws) ==> (extra <==> exists i :: 0 <= i < |ws| && !PlainWord(ws[i]))
  {
    hide IsWord, PlainWord, WordPasses, Words, Balanced, IsLocalPart, IsSplit, JoinDots;
    extra := false;
    var split := SplitWords(s);
    if split.None? {
      NotALocalPart(s);
      return false, false;
    }
    var words := split.value;
    SplitBalanced(s, words);
    for i := 0 to |words|
      invariant forall k :: 0 <= k < i ==> IsWord(words[k])
      invariant extra <==> exists k :: 0 <= k < i && !PlainWord(words[k])
    {
      var passes, more := CheckWord(words[i]);
      if !passes {
        NotAWord(s, words, i);
        return false, false;
      }
      assert words[i] in words;
      PassingIsWord(words[i]);
      extra := extra || more;
    }
    AllWords(s, words);
    forall ws | IsSplit(s, ws) ensures ws == words {
      SplitUnique(s, ws, words);
    }
    ok := true;
  }

  lemma SplitBalanced(s: string, words: seq<string>)
    requires Words(s, CLEAN, "") == Some(words)
    ensures words != [] && s == JoinDots(words) && forall w <- words :: Balanced(w)
  {
    hide Words;
    WordsRejoin(s, CLEAN, "");
    assert "" + s == s;
  }

  lemma AllWords(s: string, words: seq<string>)
    requires words != [] && s == JoinDots(words) && forall i :: 0 <= i < |words| ==> IsWord(words[i])
    ensures IsSplit(s, words) && IsLocalPart(s)
  {
  }

  lemma NotALocalPart(s: string)
    requires Words(s, CLEAN, "").None?
    ensures !IsLocalPart(s)
  {
    forall ws ensures !IsSplit(s, ws) {
      if IsSplit(s, ws) {
        SplitFound(ws);
      }
    }
  }

  lemma NotAWord(s: string, words: seq<string>, i: nat)
    requires Words(s, CLEAN, "") == Some(words) && i < |words| && !WordPasses(words[i])
    ensures !IsLocalPart(s)
  {
    forall ws ensures !IsSplit(s, ws) {
      if IsSplit(s, ws) {
        SplitFound(ws);
        assert IsWord(ws[i]);
        WordIsPassing(ws[i]);
      }
    }
  }
}
