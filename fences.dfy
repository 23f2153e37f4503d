/**
 * `stripMarkdownFences` of Frontend/lib/webcontainerClient.ts: the search of
 * the regular expression /```[a-zA-Z]*\n([\s\S]*?)```/ and what the function
 * returns from it.
 *
 * The regular expression is modelled twice: `IsMatch` says declaratively what
 * a match is, and `FirstFence` searches for one position by position, the
 * way a backtracking matcher does. `StripFences` is specified against the
 * declarative reading.
 */
module Fences {
  import opened Wrappers
  import opened Text

  /** Three backticks: the opening and the closing fence. */
  const Ticks: string := "```"

  /** The character class [a-zA-Z] of the language tag. */
  predicate IsTagLetter(c: char) {
    'a' <= c <= 'z' || 'A' <= c <= 'Z'
  }

  /** `s` has no three backticks in a row anywhere. */
  predicate NoTicks(s: string) {
    forall k: nat | k <= |s| :: !OccursAt(s, Ticks, k)
  }

  /**
   * One match of the pattern: the opening fence starts at `open`, the captured
   * body is s[bodyStart..bodyEnd], and the closing fence starts at `bodyEnd`.
   */
  datatype Fence = Fence(open: nat, bodyStart: nat, bodyEnd: nat)

  /**
   * `f` is a match of /```[a-zA-Z]*\n([\s\S]*?)```/ in `s`: an opening fence,
   * a tag of letters only, a newline, then the body up to the FIRST closing
   * fence after it (the lazy quantifier makes the body as short as possible).
   */
  predicate IsMatch(s: string, f: Fence) {
    && f.open + 3 < f.bodyStart <= f.bodyEnd
    && OccursAt(s, Ticks, f.open)
    && OccursAt(s, Ticks, f.bodyEnd)
    && (forall k :: f.open + 3 <= k < f.bodyStart - 1 ==> IsTagLetter(s[k]))
    && s[f.bodyStart - 1] == '\n'
    && (forall k: nat :: f.bodyStart <= k < f.bodyEnd ==> !OccursAt(s, Ticks, k))
  }

  /** `f` is the match a regular-expression search returns: the one starting leftmost. */
  ghost predicate IsLeftmostMatch(s: string, f: Fence) {
    IsMatch(s, f) && forall g :: IsMatch(s, g) ==> f.open <= g.open
  }

  /** At any one position there is at most one match: the tag and the body are forced. */
  lemma MatchUnique(s: string, f: Fence, g: Fence)
    requires IsMatch(s, f) && IsMatch(s, g) && f.open == g.open
    ensures f == g
  {
  }

  /** End of the run of tag letters that starts at `j`. */
  function TagEnd(s: string, j: nat): (e: nat)
    requires j <= |s|
    ensures j <= e <= |s|
    ensures forall k :: j <= k < e ==> IsTagLetter(s[k])
    ensures e < |s| ==> !IsTagLetter(s[e])
    decreases |s| - j
  {
    if j < |s| && IsTagLetter(s[j]) then TagEnd(s, j + 1) else j
  }

  /** The first closing fence at or after `k`, if there is one. */
  function FindClose(s: string, k: nat): (r: Option<nat>)
    requires k <= |s|
    ensures r.Some? ==> k <= r.value && OccursAt(s, Ticks, r.value)
    ensures r.Some? ==> forall m: nat :: k <= m < r.value ==> !OccursAt(s, Ticks, m)
    ensures r.None? ==> forall m: nat :: k <= m ==> !OccursAt(s, Ticks, m)
    decreases |s| - k
  {
    if k + 3 > |s| then None
    else if OccursAt(s, Ticks, k) then Some(k)
    else FindClose(s, k + 1)
  }

  /** The matcher tried at one start position. */
  function MatchAt(s: string, i: nat): (r: Option<Fence>)
    requires i <= |s|
    ensures r.Some? ==> IsMatch(s, r.value) && r.value.open == i
    ensures r.None? ==> forall f :: IsMatch(s, f) ==> f.open != i
  {
    if !OccursAt(s, Ticks, i) then None
    else
      var e := TagEnd(s, i + 3);
      if e < |s| && s[e] == '\n' then
        match FindClose(s, e + 1)
        case Some(c) => Some(Fence(i, e + 1, c))
        case None => None
      else None
  }

  /** The search of the regular expression from position `i` onwards. */
  function FirstFence(s: string, i: nat): (r: Option<Fence>)
    requires i <= |s|
    ensures r.Some? ==> IsMatch(s, r.value) && i <= r.value.open
    ensures r.Some? ==> forall g :: IsMatch(s, g) && i <= g.open ==> r.value.open <= g.open
    ensures r.None? ==> forall g :: IsMatch(s, g) ==> g.open < i
    decreases |s| - i
  {
    match MatchAt(s, i)
    case Some(f) => Some(f)
    case None => if i == |s| then None else FirstFence(s, i + 1)
  }

  /**
   * `stripMarkdownFences(code)`: with no match the text is returned unchanged;
   * otherwise the body of the leftmost match, trimmed, followed by one newline.
   */
  function StripFences(s: string): (r: string)
    ensures (forall f :: !IsMatch(s, f)) ==> r == s
    ensures forall f :: IsLeftmostMatch(s, f) ==> r == Trim(s[f.bodyStart..f.bodyEnd]) + "\n"
  {
    match FirstFence(s, 0)
    case None => s
    case Some(f) =>
      assert forall g :: IsLeftmostMatch(s, g) ==> g == f by {
        forall g | IsLeftmostMatch(s, g) ensures g == f {
          MatchUnique(s, f, g);
        }
      }
      Trim(s[f.bodyStart..f.bodyEnd]) + "\n"
  }

  /** A text without three backticks in a row passes through byte for byte. */
  lemma NoTicksUnchanged(s: string)
    requires NoTicks(s)
    ensures StripFences(s) == s
  {
  }

  /** A slice of a text without three backticks has none either. */
  lemma NoTicksSlice(s: string, i: nat, j: nat)
    requires i <= j <= |s|
    requires forall k: nat :: i <= k < j ==> !OccursAt(s, Ticks, k)
    ensures NoTicks(s[i..j])
  {
    forall k: nat | k <= |s[i..j]| ensures !OccursAt(s[i..j], Ticks, k) {
      if k + 3 <= |s[i..j]| {
        var window, original := s[i..j][k..k + 3], s[i + k..i + k + 3];
        forall m | 0 <= m < 3 ensures window[m] == original[m] {
          assert s[i..j][k + m] == s[i + k + m];
        }
        assert window == original;
        assert !OccursAt(s, Ticks, i + k);
      }
    }
  }

  /** Appending a newline cannot create three backticks in a row. */
  lemma NoTicksNewline(s: string)
    requires NoTicks(s)
    ensures NoTicks(s + "\n")
  {
    var t := s + "\n";
    forall k: nat | k <= |t| ensures !OccursAt(t, Ticks, k) {
      if k + 3 <= |s| {
        assert s[k..k + 3] == t[k..k + 3];
        assert !OccursAt(s, Ticks, k);
      } else if k + 3 <= |t| {
        assert t[k..k + 3][2] == '\n' && Ticks[2] == '`';
      }
    }
  }

  /** What stripping returns from a text that has a match holds no three backticks in a row. */
  lemma {:induction false} StrippedHasNoTicks(s: string)
    requires FirstFence(s, 0).Some?
    ensures NoTicks(StripFences(s))
  {
    var f := FirstFence(s, 0).value;
    var body := s[f.bodyStart..f.bodyEnd];
    NoTicksSlice(s, f.bodyStart, f.bodyEnd);
    var t := Trim(body);
    var i: nat, j: nat :| i <= j <= |body| && t == body[i..j];
    forall k: nat | i <= k < j ensures !OccursAt(body, Ticks, k) {
    }
    NoTicksSlice(body, i, j);
    NoTicksNewline(t);
  }

  /**
   * Stripping is idempotent: stripping the result again returns it unchanged.
   * So code that is stored already stripped is written to the sandbox exactly.
   */
  lemma {:induction false} StripIdempotent(s: string)
    ensures StripFences(StripFences(s)) == StripFences(s)
  {
    if FirstFence(s, 0).Some? {
      StrippedHasNoTicks(s);
      NoTicksUnchanged(StripFences(s));
    }
  }

  /** The wrapped text of the round trip matches at its start, capturing code + "\n". */
  lemma WrappedMatch(lang: string, code: string, rest: string)
    requires forall k :: 0 <= k < |lang| ==> IsTagLetter(lang[k])
    requires NoTicks(code)
    ensures var s := Ticks + lang + "\n" + code + "\n" + Ticks + rest;
            var f := Fence(0, 3 + |lang| + 1, 3 + |lang| + 1 + |code| + 1);
            IsLeftmostMatch(s, f) && s[f.bodyStart..f.bodyEnd] == code + "\n"
  {
    var s := Ticks + lang + "\n" + code + "\n" + Ticks + rest;
    var bs := 3 + |lang| + 1;
    var be := bs + |code| + 1;
    var f := Fence(0, bs, be);
    assert s[bs..be] == code + "\n";
    assert s[be..be + 3] == Ticks;
    forall k: nat | bs <= k < be ensures !OccursAt(s, Ticks, k) {
      if k + 3 <= bs + |code| {
        assert code[k - bs..k - bs + 3] == s[k..k + 3];
        assert !OccursAt(code, Ticks, k - bs);
      } else {
        assert s[be - 1] == '\n';
        assert s[k..k + 3][be - 1 - k] == '\n';
      }
    }
    assert s[..3] == Ticks;
    forall k | 3 <= k < bs - 1 ensures IsTagLetter(s[k]) {
      assert s[k] == lang[k - 3];
    }
    assert IsMatch(s, f);
  }

  /** Trimming code that has no surrounding whitespace, followed by a newline, gives the code back. */
  lemma TrimCodeNewline(code: string)
    requires code == [] || (!IsJsWhitespace(code[0]) && !IsJsWhitespace(code[|code| - 1]))
    ensures Trim(code + "\n") == code
  {
    var body := code + "\n";
    if code == [] {
      assert body == "\n";
      assert TrimStart(body) == [];
    } else {
      assert TrimStart(body) == body;
      assert body[..|body| - 1] == code;
      assert TrimEnd(body) == TrimEnd(code);
    }
  }

  /**
   * Round trip: code wrapped as "```lang\n" + code + "\n```" strips back to
   * exactly code + "\n", when the tag is letters only, the code holds no
   * fence of its own and has no whitespace to trim at either end.
   */
  lemma FenceRoundTrip(lang: string, code: string, rest: string)
    requires forall k :: 0 <= k < |lang| ==> IsTagLetter(lang[k])
    requires NoTicks(code)
    requires code == [] || (!IsJsWhitespace(code[0]) && !IsJsWhitespace(code[|code| - 1]))
    ensures StripFences(Ticks + lang + "\n" + code + "\n" + Ticks + rest) == code + "\n"
  {
    WrappedMatch(lang, code, rest);
    TrimCodeNewline(code);
  }

  /**
   * A tag holding a character that is neither a letter nor a newline (as in
   * "c++") means there is no match at that opening fence.
   */
  lemma NonLetterTagNoMatch(s: string, i: nat, m: nat)
    requires OccursAt(s, Ticks, i) && i + 3 + m < |s|
    requires forall k :: i + 3 <= k < i + 3 + m ==> IsTagLetter(s[k])
    requires !IsTagLetter(s[i + 3 + m]) && s[i + 3 + m] != '\n'
    ensures forall f :: IsMatch(s, f) ==> f.open != i
    ensures MatchAt(s, i) == None
  {
  }
}
