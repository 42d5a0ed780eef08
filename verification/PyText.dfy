/** Option and the two string operations of Python the models share: `strip` and `replace`. */
module PyText {

  datatype Option<+T> = None | Some(value: T)

  /** The characters Python 2 counts as white space in a unicode string. */
  predicate IsSpace(c: char) {
    || '\t' <= c <= '\r'
    || '\U{1c}' <= c <= ' '
    || c in ['\U{85}', '\U{a0}', '\U{1680}', '\U{180e}']
    || '\U{2000}' <= c <= '\U{200a}'
    || c in ['\U{2028}', '\U{2029}', '\U{202f}', '\U{205f}', '\U{3000}']
  }

  predicate AllSpace(s: string) {
    forall i :: 0 <= i < |s| ==> IsSpace(s[i])
  }

  predicate Stripped(s: string) {
    s != "" ==> !IsSpace(s[0]) && !IsSpace(s[|s| - 1])
  }

  function StripLeft(s: string): string {
    if s != "" && IsSpace(s[0]) then StripLeft(s[1..]) else s
  }

  function StripRight(s: string): string {
    if s != "" && IsSpace(s[|s| - 1]) then StripRight(s[..|s| - 1]) else s
  }

  function Strip(s: string): string {
    StripRight(StripLeft(s))
  }

  lemma {:induction false} StripLeftSpec(w: string, s: string)
    requires AllSpace(w)
    ensures StripLeft(w + s) == StripLeft(s)
  {
    if w == "" {
      assert w + s == s;
    } else {
      assert (w + s)[1..] == w[1..] + s;
      StripLeftSpec(w[1..], s);
    }
  }

  lemma {:induction false} StripRightSpec(s: string, w: string)
    requires AllSpace(w)
    ensures StripRight(s + w) == StripRight(s)
  {
    if w == "" {
      assert s + w == s;
    } else {
      assert (s + w)[..|s + w| - 1] == s + w[..|w| - 1];
      StripRightSpec(s, w[..|w| - 1]);
    }
  }

  lemma {:induction false} StripLeftKeeps(s: string, w: string)
    ensures AllSpace(s) ==> StripLeft(s) == "" && StripLeft(s + w) == StripLeft(w)
    ensures !AllSpace(s) ==> StripLeft(s + w) == StripLeft(s) + w
  {
    if s == "" {
      assert s + w == w;
    } else {
      assert (s + w)[1..] == s[1..] + w && s == [s[0]] + s[1..];
      assert AllSpace(s) <==> IsSpace(s[0]) && AllSpace(s[1..]);
      StripLeftKeeps(s[1..], w);
    }
  }

  /** White space around a text does not show after stripping. */
  lemma StripPadded(w: string, s: string, w': string)
    requires AllSpace(w) && AllSpace(w')
    ensures Strip(w + s + w') == Strip(s)
  {
    assert w + s + w' == w + (s + w');
    StripLeftSpec(w, s + w');
    StripLeftKeeps(s, w');
    if AllSpace(s) {
      assert w' + "" == w';
      StripLeftKeeps(w', "");
    } else {
      StripRightSpec(StripLeft(s), w');
    }
  }

  lemma StripStripped(s: string)
    requires Stripped(s)
    ensures Strip(s) == s
  {
  }

  /** The usual white space, and nothing that can be read. */
  lemma UsualSpace()
    ensures IsSpace(' ') && IsSpace('\t') && IsSpace('\n') && IsSpace('\r')
    ensures IsSpace('\U{a0}') && IsSpace('\U{3000}')
    ensures forall c :: '!' <= c <= '~' ==> !IsSpace(c)
  {
  }

  lemma {:induction false} StripLeftResult(s: string)
    ensures StripLeft(s) == "" || !IsSpace(StripLeft(s)[0])
  {
    if s != "" && IsSpace(s[0]) {
      StripLeftResult(s[1..]);
    }
  }

  lemma {:induction false} StripRightResult(s: string)
    ensures StripRight(s) == "" || !IsSpace(StripRight(s)[|StripRight(s)| - 1])
    ensures StripRight(s) <= s
  {
    if s != "" && IsSpace(s[|s| - 1]) {
      StripRightResult(s[..|s| - 1]);
    }
  }

  lemma StripIsStripped(s: string)
    ensures Stripped(Strip(s))
  {
    StripLeftResult(s);
    StripRightResult(StripLeft(s));
  }
}
