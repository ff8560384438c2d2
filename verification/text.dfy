/**
  The string operations the site designer relies on: `String.prototype.toLowerCase`
  (restricted to ASCII letters), `String.prototype.trim` and the unanchored regular
  expression test `/(kw1|kw2|...)/.test(text)`, which holds exactly when one of the
  alternatives occurs somewhere in the text.
 */
module Text {

  datatype Option<+T> = None | Some(value: T)

  /** The characters JavaScript's `trim` removes: WhiteSpace (TAB, VT, FF, ZWNBSP and
      the space separators) and LineTerminator (LF, CR, LS, PS). */
  predicate IsWhitespace(c: char) {
    || c == '\t' || c == '\n' || c == '\U{000B}' || c == '\U{000C}' || c == '\r'
    || c == ' ' || c == '\U{00A0}' || c == '\U{1680}'
    || ('\U{2000}' <= c <= '\U{200A}')
    || c == '\U{2028}' || c == '\U{2029}' || c == '\U{202F}' || c == '\U{205F}'
    || c == '\U{3000}' || c == '\U{FEFF}'
  }

  predicate AllWhitespace(s: string) {
    forall i :: 0 <= i < |s| ==> IsWhitespace(s[i])
  }

  /** Removes leading whitespace. */
  function TrimStart(s: string): string {
    if |s| > 0 && IsWhitespace(s[0]) then TrimStart(s[1..]) else s
  }

  /** Removes trailing whitespace. */
  function TrimEnd(s: string): string {
    if |s| > 0 && IsWhitespace(s[|s| - 1]) then TrimEnd(s[..|s| - 1]) else s
  }

  /** `TrimStart` keeps the longest suffix of `s` that does not start with whitespace,
      and everything it cuts off is whitespace. */
  lemma {:induction false} TrimStartShape(s: string)
    ensures |TrimStart(s)| <= |s| && TrimStart(s) == s[|s| - |TrimStart(s)|..]
    ensures AllWhitespace(s[..|s| - |TrimStart(s)|])
    ensures TrimStart(s) == [] || !IsWhitespace(TrimStart(s)[0])
  {
    if |s| > 0 && IsWhitespace(s[0]) {
      TrimStartShape(s[1..]);
      var r := TrimStart(s);
      assert s[1..][..|s| - 1 - |r|] == s[1..|s| - |r|];
    }
  }

  /** `TrimEnd` keeps the longest prefix of `s` that does not end with whitespace, and
      everything it cuts off is whitespace. */
  lemma {:induction false} TrimEndShape(s: string)
    ensures |TrimEnd(s)| <= |s| && TrimEnd(s) == s[..|TrimEnd(s)|]
    ensures AllWhitespace(s[|TrimEnd(s)|..])
    ensures TrimEnd(s) == [] || !IsWhitespace(TrimEnd(s)[|TrimEnd(s)| - 1])
  {
    if |s| > 0 && IsWhitespace(s[|s| - 1]) {
      TrimEndShape(s[..|s| - 1]);
      var r := TrimEnd(s);
      assert s[|r|..] == s[..|s| - 1][|r|..] + [s[|s| - 1]];
    }
  }

  /** `s.trim()`: whitespace cut off both ends. */
  function Trim(s: string): string {
    TrimEnd(TrimStart(s))
  }

  /** The trimmed text is the slice `s[i..j]` left after cutting whitespace off both
      ends (`i` characters before, `|s| - j` after), it neither starts nor ends with
      whitespace, and it is empty exactly when `s` is all whitespace. */
  lemma {:induction false} TrimShape(s: string)
    ensures var i := |s| - |TrimStart(s)|; var j := i + |Trim(s)|;
      && 0 <= i <= j <= |s| && Trim(s) == s[i..j]
      && AllWhitespace(s[..i]) && AllWhitespace(s[j..])
    ensures Trim(s) == [] || (!IsWhitespace(Trim(s)[0]) && !IsWhitespace(Trim(s)[|Trim(s)| - 1]))
    ensures Trim(s) == [] <==> AllWhitespace(s)
  {
    var t := TrimStart(s);
    var r := TrimEnd(t);
    TrimStartShape(s);
    TrimEndShape(t);
    var i := |s| - |t|;
    var j := i + |r|;
    assert r == s[i..j];
    assert s[j..] == t[|r|..];
    if r == [] {
      forall k | 0 <= k < |s| ensures IsWhitespace(s[k]) {
        assert s[k] == s[..i][k];
      }
    } else {
      assert !IsWhitespace(s[i]);
    }
  }

  /** Text that neither starts nor ends with whitespace is left as it is by trimming. */
  lemma TrimUnchanged(s: string)
    requires s == [] || (!IsWhitespace(s[0]) && !IsWhitespace(s[|s| - 1]))
    ensures Trim(s) == s
  {
  }

  /** Trimming twice is trimming once: what `handleSend` stores is already what
      `mockClaudeReply` would obtain by trimming it again. */
  lemma TrimIdempotent(s: string)
    ensures Trim(Trim(s)) == Trim(s)
  {
    TrimShape(s);
    TrimUnchanged(Trim(s));
  }

  /** ASCII `toLowerCase` of one character. */
  function LowerChar(c: char): char {
    if 'A' <= c <= 'Z' then (c as int + 32) as char else c
  }

  predicate IsLower(s: string) {
    forall i :: 0 <= i < |s| ==> !('A' <= s[i] <= 'Z')
  }

  /** `s.toLowerCase()` on ASCII letters, character by character. */
  function ToLower(s: string): string {
    seq(|s|, i requires 0 <= i < |s| => LowerChar(s[i]))
  }

  /** Lower-cased text has no upper-case letter left, so lower-casing it again changes nothing. */
  lemma ToLowerIsLower(s: string)
    ensures IsLower(ToLower(s))
    ensures ToLower(ToLower(s)) == ToLower(s)
  {
  }

  /** Two characters are the same letter up to case: equal, or an ASCII capital and the
      small letter 32 code points above it, in either order. */
  predicate SameIgnoringCase(x: char, y: char) {
    || x == y
    || ('A' <= x <= 'Z' && y as int == x as int + 32)
    || ('A' <= y <= 'Z' && x as int == y as int + 32)
  }

  /** Two texts that differ at most in the case of ASCII letters. */
  predicate EqualIgnoringCase(a: string, b: string) {
    |a| == |b| && forall i :: 0 <= i < |a| ==> SameIgnoringCase(a[i], b[i])
  }

  /** Two characters lower-case to the same character exactly when they are the same
      letter up to case. */
  lemma LowerCharEqualIff(x: char, y: char)
    ensures LowerChar(x) == LowerChar(y) <==> SameIgnoringCase(x, y)
  {
  }

  /** Two texts lower-case to the same string exactly when they differ only in the case of letters. */
  lemma ToLowerEqualIff(a: string, b: string)
    ensures ToLower(a) == ToLower(b) <==> EqualIgnoringCase(a, b)
  {
    if EqualIgnoringCase(a, b) {
      forall i | 0 <= i < |a| ensures ToLower(a)[i] == ToLower(b)[i] {
        LowerCharEqualIff(a[i], b[i]);
      }
    }
    if ToLower(a) == ToLower(b) {
      assert |a| == |ToLower(a)| == |ToLower(b)| == |b|;
      forall i | 0 <= i < |a| ensures SameIgnoringCase(a[i], b[i]) {
        assert ToLower(a)[i] == ToLower(b)[i];
        LowerCharEqualIff(a[i], b[i]);
      }
    }
  }

  /** `kw` occurs in `text` starting at position `i`. */
  ghost predicate OccursAt(text: string, kw: string, i: int) {
    0 <= i <= |text| - |kw| && text[i..i + |kw|] == kw
  }

  /** `kw` occurs somewhere in `text`. */
  ghost predicate Occurs(text: string, kw: string) {
    exists i :: OccursAt(text, kw, i)
  }

  /** An occurrence that does not start at position 0 is an occurrence in `text[1..]`. */
  lemma OccursShift(text: string, kw: string)
    requires |kw| <= |text| && text[..|kw|] != kw
    ensures Occurs(text, kw) <==> Occurs(text[1..], kw)
  {
    if Occurs(text[1..], kw) {
      var i :| OccursAt(text[1..], kw, i);
      assert OccursAt(text, kw, i + 1);
    }
    if Occurs(text, kw) {
      var i :| OccursAt(text, kw, i);
      assert OccursAt(text[1..], kw, i - 1);
    }
  }

  /** The search behind the test `/kw/.test(text)`, one start position after the other. */
  function Contains(text: string, kw: string): bool
    decreases |text|
  {
    if |kw| > |text| then false
    else if text[..|kw|] == kw then true
    else Contains(text[1..], kw)
  }

  /** The search finds `kw` exactly when it occurs somewhere in `text`. */
  lemma {:induction false} ContainsIffOccurs(text: string, kw: string)
    ensures Contains(text, kw) <==> Occurs(text, kw)
    decreases |text|
  {
    if |kw| > |text| {
    } else if text[..|kw|] == kw {
      assert OccursAt(text, kw, 0);
    } else {
      OccursShift(text, kw);
      ContainsIffOccurs(text[1..], kw);
    }
  }

  /** `/(kws[0]|kws[1]|...)/.test(text)`: some alternative is found in the text. */
  function ContainsAny(text: string, kws: seq<string>): bool {
    if kws == [] then false
    else Contains(text, kws[0]) || ContainsAny(text, kws[1..])
  }

  /** The alternation matches exactly when one of its alternatives occurs in the text. */
  lemma {:induction false} ContainsAnyIffSomeOccurs(text: string, kws: seq<string>)
    ensures ContainsAny(text, kws) <==> exists k :: 0 <= k < |kws| && Occurs(text, kws[k])
  {
    if kws != [] {
      ContainsIffOccurs(text, kws[0]);
      ContainsAnyIffSomeOccurs(text, kws[1..]);
      assert forall k :: 1 <= k < |kws| ==> kws[k] == kws[1..][k - 1];
    }
  }

  /** The alternation matches when the alternative `k` occurs at position `i`. */
  lemma ContainsAnyAt(text: string, kws: seq<string>, k: int, i: int)
    requires 0 <= k < |kws| && OccursAt(text, kws[k], i)
    ensures ContainsAny(text, kws)
  {
    ContainsAnyIffSomeOccurs(text, kws);
  }

  /** No non-empty keyword occurs in the empty text, which is why `suggestHeadline`'s
      guard for empty text returns the same line as its fall-through. */
  lemma NothingOccursInEmpty(kws: seq<string>)
    requires forall k :: 0 <= k < |kws| ==> kws[k] != []
    ensures !ContainsAny([], kws)
  {
    ContainsAnyIffSomeOccurs([], kws);
  }

  /** A keyword that is longer than the text, or whose first letter the text lacks,
      does not occur in it. */
  lemma NoneOccur(text: string, kws: seq<string>)
    requires forall k :: 0 <= k < |kws| ==> kws[k] != [] && (|kws[k]| > |text| || kws[k][0] !in text)
    ensures !ContainsAny(text, kws)
  {
    ContainsAnyIffSomeOccurs(text, kws);
  }

  /** The middle part of `head + middle + tail` can be cut back out. */
  lemma SpliceParts(head: string, middle: string, tail: string)
    ensures var s := head + middle + tail;
      && s[..|head|] == head
      && s[|head|..|s| - |tail|] == middle
      && s[|s| - |tail|..] == tail
  {
  }
}
