/** The dump rewriter tools/sqlite2mysql.py: two passes over the lines of a dump, which share the
    question whether a line starts inside a quoted string. */
module Sqlite2Mysql {
  import opened PyText

  const NEWLINE_MARK := "Newline333"
  const RETURN_MARK := "carriagereturn333"

  // ---- Lines ----

  function Join(lines: seq<string>): string {
    if lines == [] then "" else lines[0] + Join(lines[1..])
  }

  lemma {:induction false} JoinAppend(a: seq<string>, b: seq<string>)
    ensures Join(a + b) == Join(a) + Join(b)
  {
    if a == [] {
      assert a + b == b;
    } else {
      assert (a + b)[1..] == a[1..] + b;
      JoinAppend(a[1..], b);
    }
  }

  lemma JoinSnoc(a: seq<string>, s: string)
    ensures Join(a + [s]) == Join(a) + s
  {
    JoinAppend(a, [s]);
    assert [s][1..] == [] && Join([s]) == s + "";
  }

  /** A line break stands at the end of a line and nowhere else. */
  predicate IsLine(s: string) {
    s != "" && forall i :: 0 <= i < |s| - 1 ==> s[i] != '\n'
  }

  predicate EndsLine(s: string) {
    s != "" && s[|s| - 1] == '\n'
  }

  function FirstBreak(s: string): (n: nat)
    ensures n <= |s| && (n < |s| ==> s[n] == '\n') && forall i :: 0 <= i < n ==> s[i] != '\n'
  {
    if s == "" || s[0] == '\n' then 0 else 1 + FirstBreak(s[1..])
  }

  function FirstCut(s: string): (n: nat)
    ensures n <= |s|
  {
    var n := FirstBreak(s);
    if n < |s| then n + 1 else n
  }

  /** What `readlines` returns for a text. */
  function SplitLines(s: string): (lines: seq<string>)
    ensures Join(lines) == s
    ensures forall k :: 0 <= k < |lines| ==> IsLine(lines[k])
    ensures forall k :: 0 <= k < |lines| - 1 ==> EndsLine(lines[k])
  {
    if s == "" then []
    else
      var cut := FirstCut(s);
      [s[..cut]] + SplitLines(s[cut..])
  }

  // ---- The quote state ----

  function Flip(inString: bool, c: char): bool {
    if c == '\'' then !inString else inString
  }

  /** Whether the text behind `s` is inside a string, if the text before it was. */
  function QuoteAfter(inString: bool, s: string): bool
    decreases s
  {
    if s == "" then inString else QuoteAfter(Flip(inString, s[0]), s[1..])
  }

  lemma {:induction false} QuoteAppend(inString: bool, a: string, b: string)
    ensures QuoteAfter(inString, a + b) == QuoteAfter(QuoteAfter(inString, a), b)
    decreases a
  {
    if a == "" {
      assert a + b == b;
    } else {
      assert (a + b)[1..] == a[1..] + b;
      QuoteAppend(Flip(inString, a[0]), a[1..], b);
    }
  }

  lemma {:induction false} NoQuote(inString: bool, s: string)
    requires '\'' !in s
    ensures QuoteAfter(inString, s) == inString
    decreases s
  {
    if s != "" {
      assert s[0] != '\'' && forall c :: c in s[1..] ==> c in s;
      NoQuote(inString, s[1..]);
    }
  }

  // ---- str.replace ----

  /** Python's `replace`: leftmost matches, not overlapping. */
  function Replace(s: string, old_: string, new_: string): string
    requires old_ != ""
    decreases |s|
  {
    if s == "" then ""
    else if old_ <= s then new_ + Replace(s[|old_|..], old_, new_)
    else [s[0]] + Replace(s[1..], old_, new_)
  }

  ghost predicate Occurs(word: string, s: string) {
    exists i :: 0 <= i <= |s| && word <= s[i..]
  }

  ghost predicate NoMark(s: string) {
    !Occurs(NEWLINE_MARK, s) && !Occurs(RETURN_MARK, s)
  }

  lemma OccursInTail(word: string, s: string)
    requires s != ""
    ensures Occurs(word, s[1..]) ==> Occurs(word, s)
    ensures word <= s ==> Occurs(word, s)
  {
    assert s[0..] == s;
    if i :| 0 <= i <= |s[1..]| && word <= s[1..][i..] {
      assert s[1..][i..] == s[i + 1..];
    }
  }

  /** A replacement with as many quotes, modulo two, keeps the quote state. */
  lemma {:induction false} ReplaceKeepsQuotes(s: string, old_: string, new_: string, inString: bool)
    requires old_ != "" && forall b :: QuoteAfter(b, new_) == QuoteAfter(b, old_)
    ensures QuoteAfter(inString, Replace(s, old_, new_)) == QuoteAfter(inString, s)
    decreases |s|
  {
    if s == "" {
    } else if old_ <= s {
      var rest := s[|old_|..];
      assert s == old_ + rest;
      ReplaceKeepsQuotes(rest, old_, new_, QuoteAfter(inString, old_));
      QuoteAppend(inString, old_, rest);
      QuoteAppend(inString, new_, Replace(rest, old_, new_));
    } else {
      ReplaceKeepsQuotes(s[1..], old_, new_, Flip(inString, s[0]));
      var tail := Replace(s[1..], old_, new_);
      assert ([s[0]] + tail)[1..] == tail;
    }
  }

  /** Wherever the first letter of `word` stands in `a`, the letter `d` places on is another one. */
  predicate Misses(word: string, a: string, d: nat) {
    word != "" && forall k :: 0 <= k < |a| && a[k] == word[0] ==> k + d < |a| && d < |word| && a[k + d] != word[d]
  }

  lemma MissesTail(word: string, a: string, d: nat)
    requires Misses(word, a, d) && a != ""
    ensures Misses(word, a[1..], d)
  {
    var tail := a[1..];
    forall k | 0 <= k < |tail| && tail[k] == word[0]
      ensures k + d < |tail| && d < |word| && tail[k + d] != word[d]
    {
      assert a[k + 1] == word[0];
    }
  }

  /** No match can start in a text that the word misses. */
  lemma {:induction false} ReplaceBehind(a: string, b: string, old_: string, new_: string, d: nat)
    requires Misses(old_, a, d)
    ensures Replace(a + b, old_, new_) == a + Replace(b, old_, new_)
    decreases a
  {
    if a == "" {
      assert a + b == b;
    } else {
      assert (a + b)[0] == a[0] && (a + b)[1..] == a[1..] + b;
      assert d < |a| ==> (a + b)[d] == a[d];
      MissesTail(old_, a, d);
      ReplaceBehind(a[1..], b, old_, new_, d);
    }
  }

  lemma ReplaceSkips(a: string, b: string, old_: string, new_: string)
    requires old_ != "" && old_[0] !in a
    ensures Replace(a + b, old_, new_) == a + Replace(b, old_, new_)
  {
    assert forall k :: 0 <= k < |a| ==> a[k] in a;
    ReplaceBehind(a, b, old_, new_, 0);
  }

  /** A word without line breaks is replaced line by line. */
  lemma {:induction false} ReplaceByLine(a: string, b: string, old_: string, new_: string)
    requires old_ != "" && '\n' !in old_ && EndsLine(a)
    ensures Replace(a + b, old_, new_) == Replace(a, old_, new_) + Replace(b, old_, new_)
    decreases |a|
  {
    MatchInLine(a, b, old_);
    if old_ <= a {
      var rest := a[|old_|..];
      assert (a + b)[|old_|..] == rest + b;
      ReplaceByLine(rest, b, old_, new_);
      Assoc(new_, Replace(rest, old_, new_), Replace(b, old_, new_));
    } else {
      var rest := a[1..];
      assert (a + b)[1..] == rest + b && (a + b)[0] == a[0];
      if rest == "" {
        assert rest + b == b;
      } else {
        ReplaceByLine(rest, b, old_, new_);
      }
      Assoc([a[0]], Replace(rest, old_, new_), Replace(b, old_, new_));
    }
  }

  lemma Assoc(a: string, b: string, c: string)
    ensures a + (b + c) == a + b + c
  {
  }

  lemma MatchInLine(a: string, b: string, word: string)
    requires word != "" && '\n' !in word && EndsLine(a)
    ensures word <= a + b <==> word <= a
    ensures word <= a ==> EndsLine(a[|word|..])
  {
    assert forall i :: 0 <= i < |word| ==> word[i] in word;
    assert (a + b)[|a| - 1] == '\n';
  }

  lemma {:induction false} ReplaceEndsLine(a: string, old_: string, new_: string)
    requires old_ != "" && '\n' !in old_ && EndsLine(a)
    ensures EndsLine(Replace(a, old_, new_))
    decreases |a|
  {
    MatchInLine(a, "", old_);
    assert a + "" == a;
    if old_ <= a {
      ReplaceEndsLine(a[|old_|..], old_, new_);
    } else if |a| > 1 {
      ReplaceEndsLine(a[1..], old_, new_);
    } else {
      assert Replace(a, old_, new_) == [a[0]] + "";
    }
  }

  // ---- The first pass: line breaks inside strings become marker words ----

  function EncodeChar(c: char, inString: bool, newline: string, return_: string): string {
    if inString && c == '\n' then newline
    else if inString && c == '\r' then return_
    else [c]
  }

  /** The text with the line breaks inside strings written as two given words. */
  function EncodeWith(s: string, inString: bool, newline: string, return_: string): string
    decreases s
  {
    if s == "" then ""
    else
      EncodeChar(s[0], inString, newline, return_)
      + EncodeWith(s[1..], Flip(inString, s[0]), newline, return_)
  }

  function Encode(s: string, inString: bool): string {
    EncodeWith(s, inString, NEWLINE_MARK, RETURN_MARK)
  }

  lemma {:induction false} EncodeAppend(a: string, b: string, inString: bool, newline: string, return_: string)
    ensures EncodeWith(a + b, inString, newline, return_)
         == EncodeWith(a, inString, newline, return_)
          + EncodeWith(b, QuoteAfter(inString, a), newline, return_)
    decreases a
  {
    if a == "" {
      assert a + b == b;
    } else {
      assert (a + b)[1..] == a[1..] + b;
      EncodeAppend(a[1..], b, Flip(inString, a[0]), newline, return_);
      Assoc(EncodeChar(a[0], inString, newline, return_),
        EncodeWith(a[1..], Flip(inString, a[0]), newline, return_),
        EncodeWith(b, QuoteAfter(inString, a), newline, return_));
    }
  }

  lemma EncodeSnoc(s: string, c: char, inString: bool, newline: string, return_: string)
    ensures var q := QuoteAfter(inString, s);
      && QuoteAfter(inString, s + [c]) == Flip(q, c)
      && EncodeWith(s + [c], inString, newline, return_)
      == EncodeWith(s, inString, newline, return_) + EncodeChar(c, q, newline, return_)
  {
    var q := QuoteAfter(inString, s);
    EncodeAppend(s, [c], inString, newline, return_);
    QuoteAppend(inString, s, [c]);
    assert [c][1..] == "";
    assert EncodeWith([c], q, newline, return_) == EncodeChar(c, q, newline, return_) + "";
  }

  method RemoveNewline(line: string, inString: bool) returns (new_: string, inString': bool)
    ensures new_ == Encode(line, inString) && inString' == QuoteAfter(inString, line)
  {
    new_, inString' := "", inString;
    for i := 0 to |line|
      invariant new_ == Encode(line[..i], inString)
      invariant inString' == QuoteAfter(inString, line[..i])
    {
      var c := line[i];
      assert line[..i + 1] == line[..i] + [c];
      EncodeSnoc(line[..i], c, inString, NEWLINE_MARK, RETURN_MARK);
      if !inString' {
        if c == '\'' {
          inString' := true;
        }
      } else if c == '\'' {
        inString' := false;
      } else if c == '\n' {
        new_ := new_ + NEWLINE_MARK;
        continue;
      } else if c == '\r' {
        new_ := new_ + RETURN_MARK;
        continue;
      }
      new_ := new_ + [c];
    }
    assert line[..|line|] == line;
  }

  /** The generator `_Newline`: the state is carried from line to line, so the lines are encoded as the
      one text they form. */
  method NewlinePass(lines: seq<string>) returns (out: seq<string>)
    ensures |out| == |lines| && Join(out) == Encode(Join(lines), false)
  {
    out := [];
    var inString := false;
    for i := 0 to |lines|
      invariant |out| == i && Join(out) == Encode(Join(lines[..i]), false)
      invariant inString == QuoteAfter(false, Join(lines[..i]))
    {
      var line, after := RemoveNewline(lines[i], inString);
      assert lines[..i + 1] == lines[..i] + [lines[i]];
      JoinSnoc(lines[..i], lines[i]);
      JoinSnoc(out, line);
      EncodeAppend(Join(lines[..i]), lines[i], false, NEWLINE_MARK, RETURN_MARK);
      QuoteAppend(false, Join(lines[..i]), lines[i]);
      out, inString := out + [line], after;
    }
    assert lines[..|lines|] == lines;
  }

  predicate PlainWord(word: string) {
    word != "" && '\'' !in word && '\n' !in word
  }

  lemma CharKeepsQuotes(c: char, inString: bool, newline: string, return_: string)
    requires PlainWord(newline) && PlainWord(return_)
    ensures QuoteAfter(inString, EncodeChar(c, inString, newline, return_)) == Flip(inString, c)
  {
    var first := EncodeChar(c, inString, newline, return_);
    if c == '\'' {
      assert first[1..] == "";
    } else {
      NoQuote(inString, first);
    }
  }

  lemma {:induction false} EncodeKeepsQuotes(s: string, inString: bool, newline: string, return_: string)
    requires PlainWord(newline) && PlainWord(return_)
    ensures QuoteAfter(inString, EncodeWith(s, inString, newline, return_)) == QuoteAfter(inString, s)
    decreases s
  {
    if s != "" {
      CharKeepsQuotes(s[0], inString, newline, return_);
      EncodeKeepsQuotes(s[1..], Flip(inString, s[0]), newline, return_);
      QuoteAppend(inString, EncodeChar(s[0], inString, newline, return_),
        EncodeWith(s[1..], Flip(inString, s[0]), newline, return_));
    }
  }

  /** After the first pass every line break lies outside a string. */
  lemma {:induction false} BreaksAreOutside(s: string, inString: bool, newline: string, return_: string, i: nat)
    requires PlainWord(newline) && PlainWord(return_)
    requires var e := EncodeWith(s, inString, newline, return_); i < |e| && e[i] == '\n'
    ensures !QuoteAfter(inString, EncodeWith(s, inString, newline, return_)[..i])
    decreases s
  {
    var first := EncodeChar(s[0], inString, newline, return_);
    var rest := EncodeWith(s[1..], Flip(inString, s[0]), newline, return_);
    if i < |first| {
      assert first[i] in first;
      assert first == [s[0]] && i == 0 && !inString;
    } else {
      assert (first + rest)[..i] == first + rest[..i - |first|];
      CharKeepsQuotes(s[0], inString, newline, return_);
      QuoteAppend(inString, first, rest[..i - |first|]);
      BreaksAreOutside(s[1..], Flip(inString, s[0]), newline, return_, i - |first|);
    }
  }

  /** So every line of the encoded text but the last also ends outside: the second pass starts every
      line in the same state. */
  lemma {:induction false} LinesEndOutside(before: string, lines: seq<string>, text: string)
    requires before + Join(lines) == Encode(text, false)
    requires !QuoteAfter(false, before)
    requires forall k :: 0 <= k < |lines| ==> IsLine(lines[k])
    requires forall k :: 0 <= k < |lines| - 1 ==> EndsLine(lines[k])
    ensures forall k :: 0 <= k < |lines| - 1 ==> !QuoteAfter(false, lines[k])
    decreases lines
  {
    if |lines| > 1 {
      var line, whole := lines[0], Encode(text, false);
      var i := |before| + |line| - 1;
      var front := line[..|line| - 1];
      assert whole == before + line + Join(lines[1..]);
      assert whole[i] == '\n' && whole[..i] == before + front;
      BreaksAreOutside(text, false, NEWLINE_MARK, RETURN_MARK, i);
      QuoteAppend(false, before, front);
      assert line == front + "\n";
      QuoteAppend(false, front, "\n");
      NoQuote(QuoteAfter(false, front), "\n");
      QuoteAppend(false, before, line);
      LinesEndOutside(before + line, lines[1..], text);
    }
  }

  // ---- Decoding ----

  function Decode(line: string): string {
    Replace(Replace(line, NEWLINE_MARK, "\n"), RETURN_MARK, "\r")
  }

  /** The generator `_replaceNewline`. */
  method ReplaceNewline(lines: seq<string>) returns (out: seq<string>)
    ensures out == seq(|lines|, k requires 0 <= k < |lines| => Decode(lines[k]))
  {
    out := [];
    for i := 0 to |lines|
      invariant out == seq(i, k requires 0 <= k < i => Decode(lines[k]))
    {
      var line := Replace(lines[i], NEWLINE_MARK, "\n");
      line := Replace(line, RETURN_MARK, "\r");
      out := out + [line];
    }
  }

  /** No part of `m` can be the beginning of `word`: wherever its first letter stands, another than its
      second letter follows. */
  predicate Apart(m: string, word: string) {
    word != "" && forall i :: 0 <= i < |m| && m[i] == word[0] ==>
      i + 1 < |m| && |word| > 1 && m[i + 1] != word[1]
  }

  lemma ApartTail(m: string, word: string)
    requires Apart(m, word) && m != ""
    ensures Apart(m[1..], word)
  {
    forall i | 0 <= i < |m[1..]| && m[1..][i] == word[0]
      ensures i + 1 < |m[1..]| && |word| > 1 && m[1..][i + 1] != word[1]
    {
      assert m[i + 1] == word[0];
    }
  }

  /** Text that contains no beginning of an inserted word is the user's own text. */
  lemma {:induction false} PrefixIsOwnText(m: string, s: string, inString: bool, newline: string, return_: string)
    requires Apart(m, newline) && Apart(m, return_)
    requires m <= EncodeWith(s, inString, newline, return_)
    ensures m <= s
    decreases s
  {
    if m != "" {
      var first := EncodeChar(s[0], inString, newline, return_);
      var e := EncodeWith(s, inString, newline, return_);
      assert m[0] == first[0] && (|m| > 1 ==> m[1] == e[1]);
      assert first == [s[0]];
      ApartTail(m, newline);
      ApartTail(m, return_);
      assert e[1..] == EncodeWith(s[1..], Flip(inString, s[0]), newline, return_);
      PrefixIsOwnText(m[1..], s[1..], Flip(inString, s[0]), newline, return_);
    }
  }

  /** A marker word is never found across the border of an inserted word and the user's text. */
  lemma NoMatchAcrossBorder(word: string, s: string, inString: bool, newline: string, return_: string)
    requires word != "" && newline != "" && return_ != ""
    requires newline[0] !in word[1..] && return_[0] !in word[1..]
    requires s != "" && EncodeChar(s[0], inString, newline, return_) == [s[0]]
    requires word <= EncodeWith(s, inString, newline, return_)
    ensures word <= s
  {
    assert EncodeWith(s, inString, newline, return_)[1..]
        == EncodeWith(s[1..], Flip(inString, s[0]), newline, return_);
    PrefixIsOwnText(word[1..], s[1..], Flip(inString, s[0]), newline, return_);
  }

  lemma {:induction false} DecodeNewlines(s: string, inString: bool, newline: string, return_: string)
    requires newline != "" && return_ != "" && newline[0] !in newline[1..]
    requires newline[0] !in return_ && return_[0] !in newline
    requires !Occurs(newline, s)
    ensures Replace(EncodeWith(s, inString, newline, return_), newline, "\n")
         == EncodeWith(s, inString, "\n", return_)
    decreases s
  {
    if s != "" {
      var first := EncodeChar(s[0], inString, newline, return_);
      var rest := EncodeWith(s[1..], Flip(inString, s[0]), newline, return_);
      OccursInTail(newline, s);
      DecodeNewlines(s[1..], Flip(inString, s[0]), newline, return_);
      if inString && s[0] == '\n' {
        assert (first + rest)[|newline|..] == rest;
      } else if inString && s[0] == '\r' {
        ReplaceSkips(first, rest, newline, "\n");
      } else {
        if newline <= first + rest {
          NoMatchAcrossBorder(newline, s, inString, newline, return_);
        }
        assert (first + rest)[1..] == rest;
      }
    }
  }

  lemma {:induction false} DecodeReturns(s: string, inString: bool, return_: string)
    requires return_ != "" && return_[0] !in return_[1..] && '\n' !in return_
    requires !Occurs(return_, s)
    ensures Replace(EncodeWith(s, inString, "\n", return_), return_, "\r") == s
    decreases s
  {
    if s != "" {
      var first := EncodeChar(s[0], inString, "\n", return_);
      var rest := EncodeWith(s[1..], Flip(inString, s[0]), "\n", return_);
      OccursInTail(return_, s);
      DecodeReturns(s[1..], Flip(inString, s[0]), return_);
      if inString && s[0] == '\r' {
        assert (first + rest)[|return_|..] == rest;
      } else {
        assert first == [s[0]];
        if return_ <= first + rest {
          assert forall c :: c in return_[1..] ==> c in return_;
          NoMatchAcrossBorder(return_, s, inString, "\n", return_);
        }
        assert (first + rest)[1..] == rest;
      }
    }
  }

  lemma DecodeEncode(s: string, inString: bool)
    requires NoMark(s)
    ensures Decode(Encode(s, inString)) == s
  {
    DecodeNewlines(s, inString, NEWLINE_MARK, RETURN_MARK);
    DecodeReturns(s, inString, RETURN_MARK);
  }

  function DecodeAll(lines: seq<string>): seq<string> {
    seq(|lines|, k requires 0 <= k < |lines| => Decode(lines[k]))
  }

  lemma {:induction false} DecodeByLine(lines: seq<string>)
    requires forall k :: 0 <= k < |lines| - 1 ==> EndsLine(lines[k])
    ensures Join(DecodeAll(lines)) == Decode(Join(lines))
  {
    if |lines| == 1 {
      assert lines == [] + [lines[0]] && DecodeAll(lines) == [] + [Decode(lines[0])];
      JoinSnoc([], lines[0]);
      JoinSnoc([], Decode(lines[0]));
      assert "" + lines[0] == lines[0] && "" + Decode(lines[0]) == Decode(lines[0]);
    } else if |lines| > 1 {
      var a, b := lines[0], Join(lines[1..]);
      assert DecodeAll(lines)[1..] == DecodeAll(lines[1..]);
      DecodeByLine(lines[1..]);
      ReplaceByLine(a, b, NEWLINE_MARK, "\n");
      ReplaceEndsLine(a, NEWLINE_MARK, "\n");
      ReplaceByLine(Replace(a, NEWLINE_MARK, "\n"), Replace(b, NEWLINE_MARK, "\n"), RETURN_MARK, "\r");
    }
  }

  /** A text without the first letter of the inserted one stands in the input of `replace` as well. */
  lemma {:induction false} PrefixOfReplaced(m: string, s: string, word: string, new_: string)
    requires word != "" && new_ != "" && new_[0] !in m
    requires m <= Replace(s, word, new_)
    ensures m <= s
    decreases |s|
  {
    if m != "" {
      assert m[0] in m && !(word <= s);
      assert forall c :: c in m[1..] ==> c in m;
      PrefixOfReplaced(m[1..], s[1..], word, new_);
    }
  }

  /** No occurrence of `w` can begin or end in `new_`. */
  predicate Foreign(w: string, new_: string) {
    && w != "" && new_ != "" && new_[0] !in w && w[0] != new_[|new_| - 1]
    && (|new_| > 1 ==> |w| > 1 && w[1] !in new_)
  }

  lemma NoneBegins(w: string, new_: string, rest: string, i: nat)
    requires Foreign(w, new_) && i < |new_|
    ensures !(w <= (new_ + rest)[i..])
  {
    assert i + 1 < |new_| ==> new_[i + 1] in new_;
  }

  lemma DropFront(a: string, b: string, i: nat)
    requires |a| <= i <= |a| + |b|
    ensures (a + b)[i..] == b[i - |a|..]
  {
  }

  /** Replacing by a foreign text creates no word and leaves no match of its own word. */
  lemma {:induction false} ReplacedOccurrences(w: string, s: string, word: string, new_: string)
    requires word != "" && Foreign(w, new_)
    ensures Occurs(w, Replace(s, word, new_)) ==> Occurs(w, s) && w != word
    decreases |s|
  {
    var r := Replace(s, word, new_);
    if i :| 0 <= i <= |r| && w <= r[i..] {
      assert w[0] in w && forall c :: c in w[1..] ==> c in w;
      if word <= s {
        var rest := s[|word|..];
        if i < |new_| {
          NoneBegins(w, new_, Replace(rest, word, new_), i);
        }
        DropFront(new_, Replace(rest, word, new_), i);
        ReplacedOccurrences(w, rest, word, new_);
        var k :| 0 <= k <= |rest| && w <= rest[k..];
        assert rest[k..] == s[|word| + k..];
      } else {
        OccursInTail(w, s);
        assert r[1..] == Replace(s[1..], word, new_);
        if i == 0 {
          PrefixOfReplaced(w[1..], s[1..], word, new_);
          assert w <= s;
        } else {
          assert r[i..] == Replace(s[1..], word, new_)[i - 1..];
          ReplacedOccurrences(w, s[1..], word, new_);
        }
      }
    }
  }

  lemma DecodedHasNoMark(s: string)
    ensures NoMark(Decode(s))
  {
    var first := Replace(s, NEWLINE_MARK, "\n");
    ReplacedOccurrences(NEWLINE_MARK, s, NEWLINE_MARK, "\n");
    ReplacedOccurrences(NEWLINE_MARK, first, RETURN_MARK, "\r");
    ReplacedOccurrences(RETURN_MARK, first, RETURN_MARK, "\r");
  }

  /** Marker round trip: encoding a text, writing it to a file, reading it back line by line and
      decoding returns the text exactly when it contains neither marker word. */
  lemma MarkerRoundTrip(text: string)
    ensures Join(DecodeAll(SplitLines(Encode(text, false)))) == text
      <==> NoMark(text)
  {
    DecodeByLine(SplitLines(Encode(text, false)));
    DecodedHasNoMark(Encode(text, false));
    if NoMark(text) {
      DecodeEncode(text, false);
    }
  }

  // ---- The second pass ----

  const DELETE := "DELETE FROM sqlite_sequence;"
  const INSERT := "INSERT INTO \"sqlite_sequence\""

  const IGNORED_PREFIXES := ["PRAGMA", "BEGIN TRANSACTION;", "COMMIT;", DELETE, INSERT]

  predicate Ignored(line: string) {
    exists k :: 0 <= k < |IGNORED_PREFIXES| && IGNORED_PREFIXES[k] <= line
  }

  function Rewrite(line: string): string {
    var line := Replace(line, "INTEGER PRIMARY KEY", "INTEGER AUTO_INCREMENT PRIMARY KEY");
    var line := Replace(line, "AUTOINCREMENT", "AUTO_INCREMENT");
    var line := Replace(line, "DEFAULT 't'", "DEFAULT '1'");
    var line := Replace(line, "DEFAULT 'f'", "DEFAULT '0'");
    var line := Replace(line, ",'t'", ",'1'");
    Replace(line, ",'f'", ",'0'")
  }

  function ReplaceLine(line: string): Option<string> {
    if Ignored(line) then None else Some(Rewrite(line))
  }

  lemma QuotedLetter(inString: bool, a: string, c: string)
    requires '\'' !in a && '\'' !in c
    ensures QuoteAfter(inString, a + "'" + c + "'") == inString
  {
    NoQuote(inString, a);
    QuoteAppend(inString, a, "'");
    NoQuote(!inString, c);
    QuoteAppend(inString, a + "'", c);
    QuoteAppend(inString, a + "'" + c, "'");
    assert "'"[1..] == "";
  }

  lemma ReplaceQuoted(line: string, a: string, c: string, d: string, inString: bool)
    requires '\'' !in a && '\'' !in c && '\'' !in d
    ensures QuoteAfter(inString, Replace(line, a + "'" + c + "'", a + "'" + d + "'"))
         == QuoteAfter(inString, line)
  {
    forall b
      ensures QuoteAfter(b, a + "'" + d + "'") == QuoteAfter(b, a + "'" + c + "'")
    {
      QuotedLetter(b, a, c);
      QuotedLetter(b, a, d);
    }
    ReplaceKeepsQuotes(line, a + "'" + c + "'", a + "'" + d + "'", inString);
  }

  lemma ReplaceUnquoted(line: string, a: string, b: string, inString: bool)
    requires a != "" && '\'' !in a && '\'' !in b
    ensures QuoteAfter(inString, Replace(line, a, b)) == QuoteAfter(inString, line)
  {
    forall q
      ensures QuoteAfter(q, a) == QuoteAfter(q, b)
    {
      NoQuote(q, a);
      NoQuote(q, b);
    }
    ReplaceKeepsQuotes(line, a, b, inString);
  }

  lemma QuotedLiterals()
    ensures "DEFAULT 't'" == "DEFAULT " + "'" + "t" + "'" && "DEFAULT '1'" == "DEFAULT " + "'" + "1" + "'"
    ensures "DEFAULT 'f'" == "DEFAULT " + "'" + "f" + "'" && "DEFAULT '0'" == "DEFAULT " + "'" + "0" + "'"
    ensures ",'t'" == "," + "'" + "t" + "'" && ",'1'" == "," + "'" + "1" + "'"
    ensures ",'f'" == "," + "'" + "f" + "'" && ",'0'" == "," + "'" + "0" + "'"
  {
  }

  /** `_replace` keeps the quote structure of a line. */
  lemma RewriteKeepsQuotes(line: string, inString: bool)
    ensures QuoteAfter(inString, Rewrite(line)) == QuoteAfter(inString, line)
  {
    var a := Replace(line, "INTEGER PRIMARY KEY", "INTEGER AUTO_INCREMENT PRIMARY KEY");
    ReplaceUnquoted(line, "INTEGER PRIMARY KEY", "INTEGER AUTO_INCREMENT PRIMARY KEY", inString);
    var b := Replace(a, "AUTOINCREMENT", "AUTO_INCREMENT");
    ReplaceUnquoted(a, "AUTOINCREMENT", "AUTO_INCREMENT", inString);
    var c := Replace(b, "DEFAULT 't'", "DEFAULT '1'");
    QuotedLiterals();
    ReplaceQuoted(b, "DEFAULT ", "t", "1", inString);
    var d := Replace(c, "DEFAULT 'f'", "DEFAULT '0'");
    ReplaceQuoted(c, "DEFAULT ", "f", "0", inString);
    var e := Replace(d, ",'t'", ",'1'");
    ReplaceQuoted(d, ",", "t", "1", inString);
    ReplaceQuoted(e, ",", "f", "0", inString);
  }

  // ---- What the rewriting does ----

  /** The first of some words that stands in front, or their number. */
  function WordAt(words: seq<string>, s: string): (i: nat)
    ensures i <= |words|
    ensures i < |words| ==> words[i] <= s
    ensures forall j :: 0 <= j < i ==> !(words[j] <= s)
  {
    if words == [] || words[0] <= s then 0 else 1 + WordAt(words[1..], s)
  }

  /** A table of words to look for, and what takes their place. */
  predicate IsTable(words: seq<string>, news: seq<string>) {
    |words| == |news| && forall i :: 0 <= i < |words| ==> words[i] != ""
  }

  /** All words replaced at once, in one pass from left to right. */
  function OnePass(words: seq<string>, news: seq<string>, s: string): string
    requires IsTable(words, news)
    decreases |s|
  {
    if s == "" then ""
    else
      var i := WordAt(words, s);
      if i < |words| then news[i] + OnePass(words, news, s[|words[i]|..])
      else [s[0]] + OnePass(words, news, s[1..])
  }

  /** The first `n` words replaced one after the other. */
  function Stage(words: seq<string>, news: seq<string>, line: string, n: nat): string
    requires IsTable(words, news) && n <= |words|
  {
    if n == 0 then line else Replace(Stage(words, news, line, n - 1), words[n - 1], news[n - 1])
  }

  /** No word begins in a word that is replaced later, or in what has taken the place of an earlier one;
      and nothing inserted fits into what is looked for later. `gaps` says how far one has to look. */
  predicate Independent(words: seq<string>, news: seq<string>, gaps: seq<nat>) {
    && IsTable(words, news) && |gaps| == |words|
    && (forall i, j {:trigger Misses(words[j], words[i], gaps[j])} ::
          0 <= j < i < |words| ==> Misses(words[j], words[i], gaps[j]))
    && (forall i, j {:trigger Misses(words[j], news[i], gaps[j])} ::
          0 <= i < j < |words| ==> Misses(words[j], news[i], gaps[j]))
    && (forall i, j {:trigger Misses(news[i], words[j][1..], gaps[i])} ::
          0 <= i < j < |words| ==> Misses(news[i], words[j][1..], gaps[i]))
  }

  /** A text into which no inserted one fits stood in the input as well. */
  lemma {:induction false} TailWasThere(m: string, s: string, old_: string, new_: string, d: nat)
    requires old_ != "" && Misses(new_, m, d) && m <= Replace(s, old_, new_)
    ensures m <= s
    decreases |s|
  {
    if m != "" {
      var r := Replace(s, old_, new_);
      assert m[0] == r[0] && (d < |m| ==> m[d] == r[d]);
      assert !(old_ <= s);
      assert r[1..] == Replace(s[1..], old_, new_);
      MissesTail(new_, m, d);
      TailWasThere(m[1..], s[1..], old_, new_, d);
    }
  }

  /** A word until it is replaced, and what takes its place from then on. */
  function WordAfter(words: seq<string>, news: seq<string>, i: nat, n: nat): string
    requires |words| == |news| && i < |words|
  {
    if n <= i then words[i] else news[i]
  }

  lemma StageNext(words: seq<string>, news: seq<string>, line: string, n: nat, before: string)
    requires IsTable(words, news) && 0 < n <= |words| && before == Stage(words, news, line, n - 1)
    ensures Stage(words, news, line, n) == Replace(before, words[n - 1], news[n - 1])
  {
  }

  lemma {:induction false} StageOfWord(
    words: seq<string>, news: seq<string>, gaps: seq<nat>, i: nat, t: string, n: nat)
    requires Independent(words, news, gaps) && i < |words| && n <= |words|
    ensures Stage(words, news, words[i] + t, n) == WordAfter(words, news, i, n) + Stage(words, news, t, n)
  {
    if n > 0 {
      StageOfWord(words, news, gaps, i, t, n - 1);
      StageStep(words, news, gaps, i, t, n, words[i] + t);
    }
  }

  lemma StageStep(
    words: seq<string>, news: seq<string>, gaps: seq<nat>, i: nat, t: string, n: nat, line: string)
    requires Independent(words, news, gaps) && i < |words| && 0 < n <= |words|
    requires Stage(words, news, line, n - 1) == WordAfter(words, news, i, n - 1) + Stage(words, news, t, n - 1)
    ensures Stage(words, news, line, n) == WordAfter(words, news, i, n) + Stage(words, news, t, n)
  {
    var all, x := Stage(words, news, line, n - 1), Stage(words, news, t, n - 1);
    ReplaceOne(words, news, gaps, i, x, n - 1, all);
    StageNext(words, news, line, n, all);
    StageNext(words, news, t, n, x);
  }

  /** What one replacement makes of a word, or of what took its place, in front of a text. */
  lemma ReplaceOne(
    words: seq<string>, news: seq<string>, gaps: seq<nat>, i: nat, x: string, n: nat, all: string)
    requires Independent(words, news, gaps) && i < |words| && n < |words|
    requires all == WordAfter(words, news, i, n) + x
    ensures Replace(all, words[n], news[n])
         == WordAfter(words, news, i, n + 1) + Replace(x, words[n], news[n])
  {
    if n == i {
      ReplaceFirst(x, words[i], news[i]);
    } else {
      assert Misses(words[n], if n < i then words[i] else news[i], gaps[n]);
      ReplaceBehind(WordAfter(words, news, i, n), x, words[n], news[n], gaps[n]);
    }
  }

  lemma ReplaceFirst(x: string, old_: string, new_: string)
    requires old_ != ""
    ensures Replace(old_ + x, old_, new_) == new_ + Replace(x, old_, new_)
  {
    assert (old_ + x)[|old_|..] == x;
  }

  lemma {:induction false} StageTail(
    words: seq<string>, news: seq<string>, gaps: seq<nat>, s: string, j: nat, n: nat)
    requires Independent(words, news, gaps) && n <= j < |words| && words[j][1..] <= Stage(words, news, s, n)
    ensures words[j][1..] <= s
  {
    if n > 0 {
      TailWasThere(words[j][1..], Stage(words, news, s, n - 1), words[n - 1], news[n - 1], gaps[n - 1]);
      StageTail(words, news, gaps, s, j, n - 1);
    }
  }

  lemma {:induction false} StageOfLetter(
    words: seq<string>, news: seq<string>, gaps: seq<nat>, s: string, n: nat)
    requires Independent(words, news, gaps) && s != "" && n <= |words| && WordAt(words, s) == |words|
    ensures Stage(words, news, s, n) == [s[0]] + Stage(words, news, s[1..], n)
  {
    if n == 0 {
      assert s == [s[0]] + s[1..];
    } else {
      var x := Stage(words, news, s[1..], n - 1);
      StageOfLetter(words, news, gaps, s, n - 1);
      if words[n - 1][1..] <= x {
        StageTail(words, news, gaps, s[1..], n - 1, n - 1);
      }
      NoMatchInFront(words[n - 1], s, x);
      assert ([s[0]] + x)[1..] == x;
    }
  }

  lemma NoMatchInFront(word: string, s: string, x: string)
    requires word != "" && s != "" && !(word <= s) && (word[1..] <= x ==> word[1..] <= s[1..])
    ensures !(word <= [s[0]] + x)
  {
    assert s == [s[0]] + s[1..] && word == [word[0]] + word[1..];
    assert ([s[0]] + x)[1..] == x;
  }

  lemma {:induction false} EmptyStage(words: seq<string>, news: seq<string>, n: nat)
    requires IsTable(words, news) && n <= |words|
    ensures Stage(words, news, "", n) == ""
  {
    if n > 0 {
      EmptyStage(words, news, n - 1);
    }
  }

  /** Replacing independent words one after the other is replacing all of them in one pass. */
  lemma {:induction false} StagesAreOnePass(words: seq<string>, news: seq<string>, gaps: seq<nat>, s: string)
    requires Independent(words, news, gaps)
    ensures Stage(words, news, s, |words|) == OnePass(words, news, s)
    decreases |s|
  {
    if s == "" {
      EmptyStage(words, news, |words|);
    } else {
      var i := WordAt(words, s);
      if i < |words| {
        var t := s[|words[i]|..];
        assert s == words[i] + t;
        StageOfWord(words, news, gaps, i, t, |words|);
        StagesAreOnePass(words, news, gaps, t);
      } else {
        StageOfLetter(words, news, gaps, s, |words|);
        StagesAreOnePass(words, news, gaps, s[1..]);
      }
    }
  }

  predicate AnyWordAt(words: seq<string>, s: string, p: nat)
    requires p <= |s|
  {
    exists j :: 0 <= j < |words| && words[j] <= s[p..]
  }

  predicate NoWord(words: seq<string>, s: string) {
    forall p :: 0 <= p < |s| ==> !AnyWordAt(words, s, p)
  }

  lemma PassLetter(words: seq<string>, news: seq<string>, s: string)
    requires IsTable(words, news) && s != "" && !AnyWordAt(words, s, 0)
    ensures OnePass(words, news, s) == [s[0]] + OnePass(words, news, s[1..])
  {
    assert s[0..] == s;
  }

  lemma NoWordBehind(words: seq<string>, s: string, n: nat)
    requires 0 < n <= |s| && forall p :: 0 <= p < n ==> !AnyWordAt(words, s, p)
    ensures forall p :: 0 <= p < n - 1 ==> !AnyWordAt(words, s[1..], p)
  {
    forall p | 0 <= p < n - 1
      ensures !AnyWordAt(words, s[1..], p)
    {
      assert s[1..][p..] == s[p + 1..] && !AnyWordAt(words, s, p + 1);
    }
  }

  lemma {:induction false} PassOver(words: seq<string>, news: seq<string>, a: string, rest: string)
    requires IsTable(words, news) && forall p :: 0 <= p < |a| ==> !AnyWordAt(words, a + rest, p)
    ensures OnePass(words, news, a + rest) == a + OnePass(words, news, rest)
    decreases a
  {
    if a == "" {
      assert a + rest == rest;
    } else {
      PassLetter(words, news, a + rest);
      NoWordBehind(words, a + rest, |a|);
      assert (a + rest)[1..] == a[1..] + rest;
      PassOver(words, news, a[1..], rest);
    }
  }

  lemma NoWordNoChange(words: seq<string>, news: seq<string>, s: string)
    requires IsTable(words, news) && NoWord(words, s)
    ensures OnePass(words, news, s) == s
  {
    assert s + "" == s;
    PassOver(words, news, s, "");
  }

  lemma PassWord(words: seq<string>, news: seq<string>, gaps: seq<nat>, i: nat, b: string)
    requires Independent(words, news, gaps) && i < |words|
    ensures OnePass(words, news, words[i] + b) == news[i] + OnePass(words, news, b)
  {
    StartsWith(words, news, gaps, i, b);
    assert (words[i] + b)[|words[i]|..] == b;
  }

  lemma StartsWith(words: seq<string>, news: seq<string>, gaps: seq<nat>, i: nat, b: string)
    requires Independent(words, news, gaps) && i < |words|
    ensures WordAt(words, words[i] + b) == i
  {
    var j := WordAt(words, words[i] + b);
    if j < i {
      StartsOtherwise(words[j], words[i], b, gaps[j]);
    }
  }

  lemma StartsOtherwise(word: string, a: string, b: string, d: nat)
    requires Misses(word, a, d) && a != ""
    ensures !(word <= a + b)
  {
    assert (a + b)[0] == a[0] && (d < |a| ==> (a + b)[d] == a[d]);
  }

  // ---- The six words ----

  const WORDS := ["INTEGER PRIMARY KEY", "AUTOINCREMENT", "DEFAULT 't'", "DEFAULT 'f'", ",'t'", ",'f'"]
  const NEWS := [
    "INTEGER AUTO_INCREMENT PRIMARY KEY", "AUTO_INCREMENT", "DEFAULT '1'", "DEFAULT '0'", ",'1'", ",'0'"]
  const GAPS: seq<nat> := [2, 4, 9, 9, 2, 2]

  lemma WordsMissKey(i: nat)
    requires 0 < i < 6
    ensures Misses("INTEGER PRIMARY KEY", WORDS[i], 2)
  {
  }

  lemma WordsMissIncrement(i: nat)
    requires 1 < i < 6
    ensures Misses("AUTOINCREMENT", WORDS[i], 4)
  {
  }

  lemma WordsMiss(i: nat, j: nat)
    requires j < i < 6
    ensures Misses(WORDS[j], WORDS[i], GAPS[j])
  {
    if j == 0 {
      WordsMissKey(i);
    } else if j == 1 {
      WordsMissIncrement(i);
    }
  }

  lemma KeyMisses()
    ensures Misses("AUTOINCREMENT", "INTEGER AUTO_INCREMENT PRIMARY KEY", 4)
  {
  }

  lemma KeyMissesOthers(word: string, d: nat)
    requires word != "" && (word[0] == 'D' || word[0] == ',')
    ensures Misses(word, "INTEGER AUTO_INCREMENT PRIMARY KEY", d)
  {
  }

  lemma NewsMiss(i: nat, j: nat)
    requires i < j < 6
    ensures Misses(WORDS[j], NEWS[i], GAPS[j])
  {
    if i == 0 && j == 1 {
      KeyMisses();
    } else if i == 0 {
      KeyMissesOthers(WORDS[j], GAPS[j]);
    }
  }

  lemma TailsMissKey(j: nat)
    requires 0 < j < 6
    ensures Misses("INTEGER AUTO_INCREMENT PRIMARY KEY", WORDS[j][1..], 2)
  {
  }

  lemma TailsMissIncrement(j: nat)
    requires 1 < j < 6
    ensures Misses("AUTO_INCREMENT", WORDS[j][1..], 4)
  {
  }

  lemma TailsMiss(i: nat, j: nat)
    requires i < j < 6
    ensures Misses(NEWS[i], WORDS[j][1..], GAPS[i])
  {
    if i == 0 {
      TailsMissKey(j);
    } else if i == 1 {
      TailsMissIncrement(j);
    }
  }

  lemma SixAreIndependent()
    ensures Independent(WORDS, NEWS, GAPS)
  {
    forall i, j | 0 <= j < i < |WORDS|
      ensures Misses(WORDS[j], WORDS[i], GAPS[j])
    {
      WordsMiss(i, j);
    }
    forall i, j | 0 <= i < j < |WORDS|
      ensures Misses(WORDS[j], NEWS[i], GAPS[j])
    {
      NewsMiss(i, j);
    }
    forall i, j | 0 <= i < j < |WORDS|
      ensures Misses(NEWS[i], WORDS[j][1..], GAPS[i])
    {
      TailsMiss(i, j);
    }
  }

  lemma RewriteIsStages(line: string)
    ensures Rewrite(line) == Stage(WORDS, NEWS, line, 6)
  {
    assert Stage(WORDS, NEWS, line, 1) == Replace(line, WORDS[0], NEWS[0]);
    assert Stage(WORDS, NEWS, line, 2) == Replace(Stage(WORDS, NEWS, line, 1), WORDS[1], NEWS[1]);
    assert Stage(WORDS, NEWS, line, 3) == Replace(Stage(WORDS, NEWS, line, 2), WORDS[2], NEWS[2]);
    assert Stage(WORDS, NEWS, line, 4) == Replace(Stage(WORDS, NEWS, line, 3), WORDS[3], NEWS[3]);
    assert Stage(WORDS, NEWS, line, 5) == Replace(Stage(WORDS, NEWS, line, 4), WORDS[4], NEWS[4]);
  }

  /** The six replacements, one after the other, are one pass that replaces each of the six words by its
      own replacement: none of them touches what another one wrote. */
  lemma RewriteIsOnePass(line: string)
    ensures Rewrite(line) == OnePass(WORDS, NEWS, line)
  {
    SixAreIndependent();
    RewriteIsStages(line);
    StagesAreOnePass(WORDS, NEWS, GAPS, line);
  }

  /** A line without any of the six words stays as it is. */
  lemma OtherLinesStay(line: string)
    requires NoWord(WORDS, line)
    ensures Rewrite(line) == line
  {
    RewriteIsOnePass(line);
    NoWordNoChange(WORDS, NEWS, line);
  }

  lemma LonePass(words: seq<string>, news: seq<string>, gaps: seq<nat>, a: string, i: nat, b: string)
    requires Independent(words, news, gaps) && i < |words| && NoWord(words, b)
    requires forall p :: 0 <= p < |a| ==> !AnyWordAt(words, a + (words[i] + b), p)
    ensures OnePass(words, news, a + (words[i] + b)) == a + (news[i] + b)
  {
    PassOver(words, news, a, words[i] + b);
    PassWord(words, news, gaps, i, b);
    NoWordNoChange(words, news, b);
  }

  /** A word that stands alone in a line is replaced by its own replacement. */
  lemma OneWordReplaced(a: string, i: nat, b: string)
    requires i < 6 && NoWord(WORDS, b)
    requires forall p :: 0 <= p < |a| ==> !AnyWordAt(WORDS, a + (WORDS[i] + b), p)
    ensures Rewrite(a + (WORDS[i] + b)) == a + (NEWS[i] + b)
  {
    SixAreIndependent();
    RewriteIsOnePass(a + (WORDS[i] + b));
    LonePass(WORDS, NEWS, GAPS, a, i, b);
  }

  /** The lines that are dropped, by their beginnings. */
  lemma DroppedLines(line: string)
    ensures Ignored(line) <==>
      || "PRAGMA" <= line
      || "BEGIN TRANSACTION;" <= line
      || "COMMIT;" <= line
      || "DELETE FROM sqlite_sequence;" <= line
      || "INSERT INTO \"sqlite_sequence\"" <= line
  {
    assert IGNORED_PREFIXES[0] == "PRAGMA" && IGNORED_PREFIXES[1] == "BEGIN TRANSACTION;";
    assert IGNORED_PREFIXES[2] == "COMMIT;" && IGNORED_PREFIXES[3] == DELETE && IGNORED_PREFIXES[4] == INSERT;
  }

  function Tick(c: char, inString: bool): char {
    if !inString && c == '"' then '`' else c
  }

  /** The text with every double quote outside a string replaced by a backtick. */
  function Ticked(s: string, inString: bool): (r: string)
    ensures |r| == |s|
    decreases s
  {
    if s == "" then "" else [Tick(s[0], inString)] + Ticked(s[1..], Flip(inString, s[0]))
  }

  lemma {:induction false} TickedAt(s: string, inString: bool, i: nat)
    requires i < |s|
    ensures Ticked(s, inString)[i] == Tick(s[i], QuoteAfter(inString, s[..i]))
    decreases s
  {
    if i > 0 {
      TickedAt(s[1..], Flip(inString, s[0]), i - 1);
      assert s[..i][1..] == s[1..][..i - 1];
    }
  }

  /** `_backticks` changes the double quotes outside strings and nothing else. */
  method Backticks(line: string, inString: bool) returns (new_: string, inString': bool)
    ensures |new_| == |line|
    ensures forall i :: 0 <= i < |line| ==>
      new_[i] == if line[i] == '"' && !QuoteAfter(inString, line[..i]) then '`' else line[i]
    ensures new_ == Ticked(line, inString) && inString' == QuoteAfter(inString, line)
  {
    new_, inString' := "", inString;
    for i := 0 to |line|
      invariant new_ == Ticked(line[..i], inString)
      invariant inString' == QuoteAfter(inString, line[..i])
    {
      var c := line[i];
      TickedSnoc(line[..i], c, inString);
      assert line[..i + 1] == line[..i] + [c];
      if !inString' {
        if c == '\'' {
          inString' := true;
        } else if c == '"' {
          new_ := new_ + ['`'];
          continue;
        }
      } else if c == '\'' {
        inString' := false;
      }
      new_ := new_ + [c];
    }
    assert line[..|line|] == line;
    forall i | 0 <= i < |line|
      ensures new_[i] == Tick(line[i], QuoteAfter(inString, line[..i]))
    {
      TickedAt(line, inString, i);
    }
  }

  lemma TickedSnoc(s: string, c: char, inString: bool)
    ensures Ticked(s + [c], inString) == Ticked(s, inString) + [Tick(c, QuoteAfter(inString, s))]
    ensures QuoteAfter(inString, s + [c]) == Flip(QuoteAfter(inString, s), c)
  {
    TickedAppend(s, [c], inString);
    QuoteAppend(inString, s, [c]);
    assert [c][1..] == "";
  }

  /** Threading the state from piece to piece is one run over the whole text. */
  lemma {:induction false} TickedAppend(a: string, b: string, inString: bool)
    ensures Ticked(a + b, inString) == Ticked(a, inString) + Ticked(b, QuoteAfter(inString, a))
    decreases a
  {
    if a == "" {
      assert a + b == b;
    } else {
      assert (a + b)[1..] == a[1..] + b;
      TickedAppend(a[1..], b, Flip(inString, a[0]));
      Assoc([Tick(a[0], inString)], Ticked(a[1..], Flip(inString, a[0])),
        Ticked(b, QuoteAfter(inString, a)));
    }
  }

  lemma {:induction false} TickedKeepsQuotes(s: string, inString: bool)
    ensures QuoteAfter(inString, Ticked(s, inString)) == QuoteAfter(inString, s)
  {
    if s != "" {
      var front, c := s[..|s| - 1], s[|s| - 1];
      assert s == front + [c];
      TickedKeepsQuotes(front, inString);
      TickedSnoc(front, c, inString);
      QuoteAppend(inString, Ticked(front, inString), [Tick(c, QuoteAfter(inString, front))]);
      assert [Tick(c, QuoteAfter(inString, front))][1..] == "";
    }
  }

  /** One line of the second pass, from the state in which it starts. */
  function ProcessFrom(lines: seq<string>, inString: bool): seq<string>
    decreases lines
  {
    if lines == [] then []
    else if inString then
      [Ticked(lines[0], true)] + ProcessFrom(lines[1..], QuoteAfter(true, lines[0]))
    else match ReplaceLine(lines[0])
      case None => ProcessFrom(lines[1..], false)
      case Some(line) => [Ticked(line, false)] + ProcessFrom(lines[1..], QuoteAfter(false, line))
  }

  const SQL_MODE := "SET sql_mode='NO_BACKSLASH_ESCAPES';\n"

  /** The generator `_process`; `header` is the optional database preamble. */
  method Process(header: seq<string>, lines: seq<string>) returns (out: seq<string>)
    ensures out == header + [SQL_MODE] + ProcessFrom(lines, false)
  {
    out := header + [SQL_MODE];
    var inString := false;
    for i := 0 to |lines|
      invariant out + ProcessFrom(lines[i..], inString)
             == header + [SQL_MODE] + ProcessFrom(lines, false)
    {
      var line := lines[i];
      if !inString {
        var replaced := ReplaceLine(line);
        if replaced.None? {
          continue;
        }
        line := replaced.value;
      }
      var ticked, after := Backticks(line, inString);
      out, inString := out + [ticked], after;
    }
  }

  /** One line by itself. */
  function ProcessOne(line: string): seq<string> {
    if Ignored(line) then [] else [Ticked(Rewrite(line), false)]
  }

  function ProcessEach(lines: seq<string>): seq<string> {
    if lines == [] then [] else ProcessOne(lines[0]) + ProcessEach(lines[1..])
  }

  /** After the first pass the lines are independent: the second pass never meets a line inside a
      string, so each line is dropped, or rewritten and re-quoted, on its own. */
  lemma {:induction false} LinesAreIndependent(lines: seq<string>)
    requires forall k :: 0 <= k < |lines| - 1 ==> !QuoteAfter(false, lines[k])
    ensures ProcessFrom(lines, false) == ProcessEach(lines)
  {
    if lines != [] {
      LinesAreIndependent(lines[1..]);
      if |lines| == 1 {
        assert lines[1..] == [];
      } else if !Ignored(lines[0]) {
        RewriteKeepsQuotes(lines[0], false);
      }
    }
  }

  lemma SecondPassStartsOutside(text: string)
    ensures var lines := SplitLines(Encode(text, false));
      && (forall k :: 0 <= k < |lines| - 1 ==> !QuoteAfter(false, lines[k]))
      && ProcessFrom(lines, false) == ProcessEach(lines)
  {
    var lines := SplitLines(Encode(text, false));
    LinesEndOutside("", lines, text);
    LinesAreIndependent(lines);
  }

  // ---- The whole program ----

  /** Both passes and the decoding, as `main` chains them. */
  method Convert(header: seq<string>, text: string) returns (out: seq<string>)
    ensures out == DecodeAll(header + [SQL_MODE] + ProcessEach(SplitLines(Encode(text, false))))
  {
    var encoded := NewlinePass(SplitLines(text));
    var lines := SplitLines(Join(encoded));
    var processed := Process(header, lines);
    out := ReplaceNewline(processed);
    SecondPassStartsOutside(text);
  }

  lemma {:induction false} TickedEncode(s: string, inString: bool, newline: string, return_: string)
    requires PlainWord(newline) && PlainWord(return_) && '"' !in newline && '"' !in return_
    ensures Ticked(EncodeWith(s, inString, newline, return_), inString)
         == EncodeWith(Ticked(s, inString), inString, newline, return_)
  {
    if s != "" {
      var front, c := s[..|s| - 1], s[|s| - 1];
      var q := QuoteAfter(inString, front);
      var last := EncodeChar(c, q, newline, return_);
      assert s == front + [c];
      TickedEncode(front, inString, newline, return_);
      EncodeSnoc(front, c, inString, newline, return_);
      TickedAppend(EncodeWith(front, inString, newline, return_), last, inString);
      EncodeKeepsQuotes(front, inString, newline, return_);
      TickedSnoc(front, c, inString);
      TickedKeepsQuotes(front, inString);
      EncodeSnoc(Ticked(front, inString), Tick(c, q), inString, newline, return_);
      TickedWord(c, q, newline, return_);
    }
  }

  lemma TickedWord(c: char, q: bool, newline: string, return_: string)
    requires PlainWord(newline) && PlainWord(return_) && '"' !in newline && '"' !in return_
    ensures Ticked(EncodeChar(c, q, newline, return_), q) == EncodeChar(Tick(c, q), q, newline, return_)
  {
    var word := EncodeChar(c, q, newline, return_);
    if word == [c] {
      assert word[1..] == "";
    } else {
      TickedPlain(word, q);
    }
  }

  lemma {:induction false} TickedPlain(word: string, q: bool)
    requires '"' !in word
    ensures Ticked(word, q) == word
  {
    forall i | 0 <= i < |word|
      ensures Ticked(word, q)[i] == word[i]
    {
      TickedAt(word, q, i);
      assert word[i] in word;
    }
  }

  lemma TickedHasNoNewWord(word: string, s: string, inString: bool)
    requires '`' !in word
    ensures Occurs(word, Ticked(s, inString)) ==> Occurs(word, s)
  {
    var t := Ticked(s, inString);
    if i :| 0 <= i <= |t| && word <= t[i..] {
      forall k | 0 <= k < |word|
        ensures word[k] == s[i..][k]
      {
        assert word[k] == t[i + k] && word[k] in word;
        TickedAt(s, inString, i + k);
      }
      assert word <= s[i..];
    }
  }

  // ---- Every dump without marker words ----

  /** Where the first line ends that is not ended inside a string. */
  function LineEnd(s: string, inString: bool): (n: nat)
    ensures n <= |s| && (s != "" ==> n > 0)
    decreases s
  {
    if s == "" then 0
    else if s[0] == '\n' && !inString then 1
    else 1 + LineEnd(s[1..], Flip(inString, s[0]))
  }

  /** The lines of a dump as a person reads it: a line break inside a string ends no line. */
  function LogicalLines(s: string): seq<string> {
    if s == "" then []
    else
      var n := LineEnd(s, false);
      [s[..n]] + LogicalLines(s[n..])
  }

  /** Breaks before the end of the text stand inside strings. */
  predicate BreaksInside(s: string, inString: bool) {
    forall i :: 0 <= i < |s| - 1 && s[i] == '\n' ==> QuoteAfter(inString, s[..i])
  }

  lemma {:induction false} LineEndSpec(s: string, inString: bool)
    ensures var n := LineEnd(s, inString);
      && BreaksInside(s[..n], inString)
      && (n < |s| ==> EndsLine(s[..n]) && !QuoteAfter(inString, s[..n]))
    decreases s
  {
    var n := LineEnd(s, inString);
    if s != "" {
      var tail, q := s[1..], Flip(inString, s[0]);
      if s[0] == '\n' && !inString {
        assert s[..n][1..] == "";
      } else {
        LineEndSpec(tail, q);
        assert s[..n][1..] == tail[..n - 1];
        forall i | 0 <= i < n - 1 && s[..n][i] == '\n'
          ensures QuoteAfter(inString, s[..n][..i])
        {
          if i == 0 {
            assert s[..n][..i] == "";
          } else {
            assert s[..n][..i][1..] == tail[..n - 1][..i - 1];
          }
        }
      }
    }
  }

  predicate LogicalForm(lines: seq<string>) {
    && (forall k :: 0 <= k < |lines| ==> lines[k] != "" && BreaksInside(lines[k], false))
    && (forall k :: 0 <= k < |lines| - 1 ==> EndsLine(lines[k]) && !QuoteAfter(false, lines[k]))
  }

  lemma LogicalFormCons(line: string, rest: seq<string>)
    requires LogicalForm(rest) && line != "" && BreaksInside(line, false)
    requires rest != [] ==> EndsLine(line) && !QuoteAfter(false, line)
    ensures LogicalForm([line] + rest) && Join([line] + rest) == line + Join(rest)
  {
    assert ([line] + rest)[1..] == rest;
  }

  /** The logical lines make up the dump; each but the last ends with a break outside strings, and all
      their other breaks lie inside. */
  lemma {:induction false} LogicalLinesSpec(s: string)
    ensures Join(LogicalLines(s)) == s && LogicalForm(LogicalLines(s))
    decreases |s|
  {
    if s != "" {
      var n := LineEnd(s, false);
      LineEndSpec(s, false);
      LogicalLinesSpec(s[n..]);
      assert s == s[..n] + s[n..];
      LogicalFormCons(s[..n], LogicalLines(s[n..]));
    }
  }

  lemma {:induction false} FirstBreakBehind(first: string, rest: string)
    requires '\n' !in first
    ensures FirstBreak(first + rest) == |first| + FirstBreak(rest)
  {
    if first == "" {
      assert first + rest == rest;
    } else {
      assert (first + rest)[1..] == first[1..] + rest && (first + rest)[0] in first;
      assert forall c :: c in first[1..] ==> c in first;
      FirstBreakBehind(first[1..], rest);
    }
  }

  /** The first line of the encoded text is the first logical line, encoded. */
  lemma {:induction false} EncodedLineEnd(s: string, inString: bool, newline: string, return_: string)
    requires PlainWord(newline) && PlainWord(return_)
    ensures FirstCut(EncodeWith(s, inString, newline, return_))
         == |EncodeWith(s[..LineEnd(s, inString)], inString, newline, return_)|
    decreases s
  {
    if s != "" {
      var n := LineEnd(s, inString);
      var first := EncodeChar(s[0], inString, newline, return_);
      var q := Flip(inString, s[0]);
      assert s[..n][0] == s[0];
      if s[0] == '\n' && !inString {
        EncodeSnoc("", '\n', inString, newline, return_);
        assert s[..n] == "" + "\n";
      } else {
        assert s[..n][1..] == s[1..][..n - 1];
        FirstBreakBehind(first, EncodeWith(s[1..], q, newline, return_));
        EncodedLineEnd(s[1..], q, newline, return_);
      }
    }
  }

  function EncodeEach(lines: seq<string>): seq<string> {
    if lines == [] then [] else [Encode(lines[0], false)] + EncodeEach(lines[1..])
  }

  lemma {:induction false} EncodeNonEmpty(s: string, inString: bool)
    requires s != ""
    ensures Encode(s, inString) != ""
  {
    assert EncodeChar(s[0], inString, NEWLINE_MARK, RETURN_MARK) != "";
  }

  /** The first pass writes one line for each logical line. */
  lemma {:induction false} OneLineEach(s: string)
    ensures SplitLines(Encode(s, false)) == EncodeEach(LogicalLines(s))
    decreases |s|
  {
    if s != "" {
      var n := LineEnd(s, false);
      var line, rest := s[..n], s[n..];
      assert s == line + rest;
      LineEndSpec(s, false);
      EncodedLineEnd(s, false, NEWLINE_MARK, RETURN_MARK);
      EncodeNonEmpty(s, false);
      EncodeAppend(line, rest, false, NEWLINE_MARK, RETURN_MARK);
      OneLineEach(rest);
      var e := Encode(s, false);
      assert rest == "" || !QuoteAfter(false, line);
      assert e[..|Encode(line, false)|] == Encode(line, false);
      assert e[|Encode(line, false)|..] == Encode(rest, false);
    }
  }

  /** What the second pass looks for: a text that no encoded break can touch. */
  predicate SearchText(m: string) {
    m != "" && '\n' !in m && '\r' !in m && Apart(m, NEWLINE_MARK) && Apart(m, RETURN_MARK)
  }

  lemma {:induction false} EncodePlain(m: string, inString: bool)
    requires '\n' !in m && '\r' !in m
    ensures Encode(m, inString) == m
    decreases m
  {
    if m != "" {
      assert m[0] in m && forall c :: c in m[1..] ==> c in m;
      EncodePlain(m[1..], Flip(inString, m[0]));
    }
  }

  lemma PrefixSurvives(m: string, s: string, inString: bool)
    requires SearchText(m)
    ensures m <= Encode(s, inString) <==> m <= s
  {
    if m <= Encode(s, inString) {
      PrefixIsOwnText(m, s, inString, NEWLINE_MARK, RETURN_MARK);
    }
    if m <= s {
      assert s == m + s[|m|..];
      EncodeAppend(m, s[|m|..], inString, NEWLINE_MARK, RETURN_MARK);
      EncodePlain(m, inString);
    }
  }

  /** A replacement that the second pass may make on encoded text. */
  predicate Harmless(old_: string, new_: string) {
    && SearchText(old_) && old_[0] !in NEWLINE_MARK && old_[0] !in RETURN_MARK
    && '\n' !in new_ && '\r' !in new_
    && Foreign(NEWLINE_MARK, new_) && Foreign(RETURN_MARK, new_)
  }

  /** Replacing in the encoded text is encoding the replaced text. */
  lemma {:induction false} ReplaceEncoded(s: string, old_: string, new_: string, inString: bool)
    requires Harmless(old_, new_) && forall b :: QuoteAfter(b, new_) == QuoteAfter(b, old_)
    ensures Replace(Encode(s, inString), old_, new_) == Encode(Replace(s, old_, new_), inString)
    decreases |s|
  {
    PrefixSurvives(old_, s, inString);
    if s == "" {
    } else if old_ <= s {
      var rest, q := s[|old_|..], QuoteAfter(inString, old_);
      assert s == old_ + rest;
      EncodeAppend(old_, rest, inString, NEWLINE_MARK, RETURN_MARK);
      EncodePlain(old_, inString);
      assert (old_ + Encode(rest, q))[|old_|..] == Encode(rest, q);
      ReplaceEncoded(rest, old_, new_, q);
      EncodeAppend(new_, Replace(rest, old_, new_), inString, NEWLINE_MARK, RETURN_MARK);
      EncodePlain(new_, inString);
    } else {
      var q, first := Flip(inString, s[0]), EncodeChar(s[0], inString, NEWLINE_MARK, RETURN_MARK);
      var tail := Replace(s[1..], old_, new_);
      ReplaceEncoded(s[1..], old_, new_, q);
      assert ([s[0]] + tail)[1..] == tail;
      if first == [s[0]] {
        assert (first + Encode(s[1..], q))[1..] == Encode(s[1..], q);
      } else {
        ReplaceSkips(first, Encode(s[1..], q), old_, new_);
      }
    }
  }

  /** One of the six replacements, with all that it leaves alone. */
  lemma ReplaceStep(s: string, old_: string, new_: string)
    requires Harmless(old_, new_) && forall b :: QuoteAfter(b, new_) == QuoteAfter(b, old_)
    ensures Replace(Encode(s, false), old_, new_) == Encode(Replace(s, old_, new_), false)
    ensures NoMark(s) ==> NoMark(Replace(s, old_, new_))
  {
    ReplaceEncoded(s, old_, new_, false);
    ReplacedOccurrences(NEWLINE_MARK, s, old_, new_);
    ReplacedOccurrences(RETURN_MARK, s, old_, new_);
  }

  lemma StepUnquoted(s: string, a: string, b: string)
    requires Harmless(a, b) && '\'' !in a && '\'' !in b
    ensures Replace(Encode(s, false), a, b) == Encode(Replace(s, a, b), false)
    ensures NoMark(s) ==> NoMark(Replace(s, a, b))
  {
    forall q
      ensures QuoteAfter(q, b) == QuoteAfter(q, a)
    {
      NoQuote(q, a);
      NoQuote(q, b);
    }
    ReplaceStep(s, a, b);
  }

  lemma StepQuoted(s: string, a: string, c: string, d: string)
    requires '\'' !in a && '\'' !in c && '\'' !in d
    requires Harmless(a + "'" + c + "'", a + "'" + d + "'")
    ensures var x, y := a + "'" + c + "'", a + "'" + d + "'";
      && Replace(Encode(s, false), x, y) == Encode(Replace(s, x, y), false)
      && (NoMark(s) ==> NoMark(Replace(s, x, y)))
  {
    forall q
      ensures QuoteAfter(q, a + "'" + d + "'") == QuoteAfter(q, a + "'" + c + "'")
    {
      QuotedLetter(q, a, c);
      QuotedLetter(q, a, d);
    }
    ReplaceStep(s, a + "'" + c + "'", a + "'" + d + "'");
  }

  lemma PrimaryKeySearch()
    ensures SearchText("INTEGER PRIMARY KEY")
  {
  }

  lemma PrimaryKeyForeign()
    ensures Foreign(NEWLINE_MARK, "INTEGER AUTO_INCREMENT PRIMARY KEY")
    ensures Foreign(RETURN_MARK, "INTEGER AUTO_INCREMENT PRIMARY KEY")
  {
  }

  lemma PrimaryKeyIsHarmless()
    ensures Harmless("INTEGER PRIMARY KEY", "INTEGER AUTO_INCREMENT PRIMARY KEY")
  {
    PrimaryKeySearch();
    PrimaryKeyForeign();
  }

  lemma IncrementSearch()
    ensures SearchText("AUTOINCREMENT")
  {
  }

  lemma IncrementIsHarmless()
    ensures Harmless("AUTOINCREMENT", "AUTO_INCREMENT")
  {
    IncrementSearch();
  }

  lemma DefaultsAreHarmless()
    ensures Harmless("DEFAULT 't'", "DEFAULT '1'") && Harmless("DEFAULT 'f'", "DEFAULT '0'")
  {
  }

  lemma ValuesAreHarmless()
    ensures Harmless(",'t'", ",'1'") && Harmless(",'f'", ",'0'")
  {
  }

  /** The rewriting does to an encoded line what it does to the line. */
  lemma RewriteEncoded(line: string)
    ensures Rewrite(Encode(line, false)) == Encode(Rewrite(line), false)
    ensures NoMark(line) ==> NoMark(Rewrite(line))
  {
    PrimaryKeyIsHarmless();
    IncrementIsHarmless();
    DefaultsAreHarmless();
    ValuesAreHarmless();
    QuotedLiterals();
    StepUnquoted(line, "INTEGER PRIMARY KEY", "INTEGER AUTO_INCREMENT PRIMARY KEY");
    var a := Replace(line, "INTEGER PRIMARY KEY", "INTEGER AUTO_INCREMENT PRIMARY KEY");
    StepUnquoted(a, "AUTOINCREMENT", "AUTO_INCREMENT");
    var b := Replace(a, "AUTOINCREMENT", "AUTO_INCREMENT");
    StepQuoted(b, "DEFAULT ", "t", "1");
    var c := Replace(b, "DEFAULT 't'", "DEFAULT '1'");
    StepQuoted(c, "DEFAULT ", "f", "0");
    var d := Replace(c, "DEFAULT 'f'", "DEFAULT '0'");
    StepQuoted(d, ",", "t", "1");
    StepQuoted(Replace(d, ",'t'", ",'1'"), ",", "f", "0");
  }

  lemma PlainDelete()
    ensures '\n' !in DELETE && '\r' !in DELETE
  {
  }

  lemma PlainInsert()
    ensures '\n' !in INSERT && '\r' !in INSERT
  {
  }

  lemma DeleteIsApart()
    ensures Apart(DELETE, NEWLINE_MARK) && Apart(DELETE, RETURN_MARK)
  {
  }

  lemma InsertNewline()
    ensures Apart(INSERT, NEWLINE_MARK)
  {
  }

  lemma InsertReturn()
    ensures Apart(INSERT, RETURN_MARK)
  {
  }

  lemma PrefixIsSearchText(k: nat)
    requires k < |IGNORED_PREFIXES|
    ensures SearchText(IGNORED_PREFIXES[k])
  {
    PlainDelete();
    PlainInsert();
    DeleteIsApart();
    InsertNewline();
    InsertReturn();
  }

  lemma IgnoredEncoded(line: string)
    ensures Ignored(Encode(line, false)) <==> Ignored(line)
  {
    forall k | 0 <= k < |IGNORED_PREFIXES|
      ensures IGNORED_PREFIXES[k] <= Encode(line, false) <==> IGNORED_PREFIXES[k] <= line
    {
      PrefixIsSearchText(k);
      PrefixSurvives(IGNORED_PREFIXES[k], line, false);
    }
  }

  /** Encoding, processing and decoding one logical line is processing it. */
  lemma OneLineConverted(line: string)
    requires NoMark(line)
    ensures DecodeAll(ProcessOne(Encode(line, false))) == ProcessOne(line)
  {
    IgnoredEncoded(line);
    RewriteEncoded(line);
    if !Ignored(line) {
      DecodeTicked(Rewrite(line));
    }
  }

  lemma DecodeTicked(text: string)
    requires NoMark(text)
    ensures Decode(Ticked(Encode(text, false), false)) == Ticked(text, false)
  {
    TickedEncode(text, false, NEWLINE_MARK, RETURN_MARK);
    TickedHasNoNewWord(NEWLINE_MARK, text, false);
    TickedHasNoNewWord(RETURN_MARK, text, false);
    DecodeEncode(Ticked(text, false), false);
  }

  lemma OccursInPart(word: string, a: string, b: string)
    ensures Occurs(word, a) || Occurs(word, b) ==> Occurs(word, a + b)
  {
    if i :| 0 <= i <= |a| && word <= a[i..] {
      assert (a + b)[i..] == a[i..] + b;
    }
    if i :| 0 <= i <= |b| && word <= b[i..] {
      assert (a + b)[|a| + i..] == b[i..];
    }
  }

  lemma NoMarkInParts(a: string, b: string)
    requires NoMark(a + b)
    ensures NoMark(a) && NoMark(b)
  {
    OccursInPart(NEWLINE_MARK, a, b);
    OccursInPart(RETURN_MARK, a, b);
  }

  lemma DecodeAllAppend(a: seq<string>, b: seq<string>)
    ensures DecodeAll(a + b) == DecodeAll(a) + DecodeAll(b)
  {
  }

  lemma {:induction false} EachLineConverted(lines: seq<string>)
    requires NoMark(Join(lines))
    ensures DecodeAll(ProcessEach(EncodeEach(lines))) == ProcessEach(lines)
  {
    if lines != [] {
      NoMarkInParts(lines[0], Join(lines[1..]));
      OneLineConverted(lines[0]);
      EachLineConverted(lines[1..]);
      var first, rest := ProcessOne(Encode(lines[0], false)), ProcessEach(EncodeEach(lines[1..]));
      assert EncodeEach(lines)[1..] == EncodeEach(lines[1..]);
      DecodeAllAppend(first, rest);
    }
  }

  /** Every dump without marker words comes out as its logical lines, each of them dropped or else
      rewritten and re-quoted on its own: what the program does to the lines it reads it does to the
      lines a person sees, and every multi-line string stays one. */
  lemma ConvertDump(header: seq<string>, text: string)
    requires NoMark(text)
    ensures DecodeAll(header + [SQL_MODE] + ProcessEach(SplitLines(Encode(text, false))))
         == DecodeAll(header + [SQL_MODE]) + ProcessEach(LogicalLines(text))
  {
    OneLineEach(text);
    LogicalLinesSpec(text);
    EachLineConverted(LogicalLines(text));
    var top, rest := header + [SQL_MODE], ProcessEach(SplitLines(Encode(text, false)));
    DecodeAllAppend(top, rest);
  }

  /** A line that the second pass only re-quotes. */
  predicate Untouched(line: string) {
    !Ignored(line) && Rewrite(line) == line
  }

  lemma {:induction false} EachTicked(lines: seq<string>)
    requires LogicalForm(lines) && forall k :: 0 <= k < |lines| ==> Untouched(lines[k])
    ensures Join(ProcessEach(lines)) == Ticked(Join(lines), false)
  {
    if lines != [] {
      var first, rest := lines[0], lines[1..];
      assert Untouched(first);
      EachTicked(rest);
      assert ([Ticked(first, false)] + ProcessEach(rest))[1..] == ProcessEach(rest);
      TickedAppend(first, Join(rest), false);
      if rest == [] {
        assert Join(rest) == "" && first + "" == first;
      }
    }
  }

  /** In particular a dump whose logical lines need no rewriting comes out with its double quotes
      outside strings turned into backticks, and otherwise exactly as it was. */
  lemma ConvertPlainDump(header: seq<string>, text: string)
    requires NoMark(text)
    requires forall k :: 0 <= k < |LogicalLines(text)| ==> Untouched(LogicalLines(text)[k])
    ensures Join(DecodeAll(header + [SQL_MODE] + ProcessEach(SplitLines(Encode(text, false)))))
         == Join(DecodeAll(header + [SQL_MODE])) + Ticked(text, false)
  {
    ConvertDump(header, text);
    LogicalLinesSpec(text);
    EachTicked(LogicalLines(text));
    JoinAppend(DecodeAll(header + [SQL_MODE]), ProcessEach(LogicalLines(text)));
  }
}
