/** The string primitives the search uses: `trim`, `toLowerCase`, and
    `toUpperCase` for stating case-insensitivity, together with `includes`.
    Letter case is ASCII only, and whitespace is a fixed set of characters. */
module Text {

  /** The characters `trim` removes in this model: the ASCII whitespace and
      line terminators, no-break space, the byte-order mark and the two
      Unicode line/paragraph separators. */
  function IsSpace(c: char): (space: bool)
    ensures space ==> !IsUpper(c) && !IsLower(c)
  {
    c == ' ' || c == '\t' || c == '\n' || c == '\r' || c == '\U{000B}' || c == '\U{000C}'
    || c == '\U{00A0}' || c == '\U{FEFF}' || c == '\U{2028}' || c == '\U{2029}'
  }

  predicate AllSpace(s: string) {
    forall i :: 0 <= i < |s| ==> IsSpace(s[i])
  }

  predicate IsUpper(c: char) { 'A' <= c <= 'Z' }

  predicate IsLower(c: char) { 'a' <= c <= 'z' }

  /** The ASCII case mapping: a capital letter becomes the small letter at the
      same place in the alphabet, every other character is kept. */
  function LowerChar(c: char): (d: char)
    ensures !IsUpper(d)
    ensures IsUpper(c) ==> IsLower(d) && d as int - 'a' as int == c as int - 'A' as int
    ensures IsSpace(d) == IsSpace(c)
    ensures !IsUpper(c) ==> d == c
  {
    if IsUpper(c) then (c as int + 32) as char else c
  }

  /** The inverse mapping, used only to state that filtering ignores case. */
  function UpperChar(c: char): (d: char)
    ensures !IsLower(d)
    ensures IsLower(c) ==> IsUpper(d) && d as int - 'A' as int == c as int - 'a' as int
    ensures !IsLower(c) ==> d == c
    ensures LowerChar(d) == LowerChar(c)
  {
    if IsLower(c) then (c as int - 32) as char else c
  }

  /** `toLowerCase`: every character lower-cased, nothing else changed. */
  function ToLower(s: string): (r: string)
    ensures |r| == |s|
    ensures forall i :: 0 <= i < |s| ==> r[i] == LowerChar(s[i])
  {
    if s == [] then [] else [LowerChar(s[0])] + ToLower(s[1..])
  }

  /** Every character upper-cased; used only to state that filtering ignores
      case. */
  function ToUpper(s: string): (r: string)
    ensures |r| == |s|
    ensures forall i :: 0 <= i < |s| ==> r[i] == UpperChar(s[i])
  {
    if s == [] then [] else [UpperChar(s[0])] + ToUpper(s[1..])
  }

  /** Drops leading whitespace: what is kept is a suffix of `s` that does not
      start with whitespace (`TrimStartDropsSpace`: what is dropped is all
      whitespace). */
  function TrimStart(s: string): (r: string)
    ensures |r| <= |s| && r == s[|s| - |r|..]
    ensures r != [] ==> !IsSpace(r[0])
  {
    if s != [] && IsSpace(s[0]) then TrimStart(s[1..]) else s
  }

  /** Drops trailing whitespace: what is kept is a prefix of `s` that does not
      end with whitespace (`TrimEndDropsSpace`: what is dropped is all
      whitespace). */
  function TrimEnd(s: string): (r: string)
    ensures |r| <= |s| && r == s[..|r|]
    ensures r != [] ==> !IsSpace(r[|r| - 1])
  {
    if s != [] && IsSpace(s[|s| - 1]) then TrimEnd(s[..|s| - 1]) else s
  }

  /** Every character of `s` outside the `n` characters from position `k` on
      is whitespace. */
  predicate SpaceAround(s: string, k: int, n: int) {
    forall i :: 0 <= i < |s| && !(k <= i < k + n) ==> IsSpace(s[i])
  }

  /** `r` is a slice of `s` with nothing but whitespace before and after it. */
  predicate SliceAmidSpace(s: string, r: string) {
    exists k :: 0 <= k && k + |r| <= |s| && r == s[k..k + |r|] && SpaceAround(s, k, |r|)
  }

  /** `trim`: whitespace dropped from both ends. The result is the middle of
      `s` between a whitespace prefix and a whitespace suffix, it neither
      starts nor ends with whitespace, and it is empty exactly when `s` is
      whitespace only. */
  function Trim(s: string): (r: string)
    ensures |r| <= |s|
    ensures SliceAmidSpace(s, r)
    ensures r != [] ==> !IsSpace(r[0]) && !IsSpace(r[|r| - 1])
    ensures r == [] <==> AllSpace(s)
  {
    TrimMiddle(s);
    TrimEnd(TrimStart(s))
  }

  /** The characters `TrimStart` drops are all whitespace. */
  lemma {:induction false} TrimStartDropsSpace(s: string)
    ensures forall i :: 0 <= i < |s| - |TrimStart(s)| ==> IsSpace(s[i])
    decreases |s|
  {
    if s != [] && IsSpace(s[0]) {
      TrimStartDropsSpace(s[1..]);
      assert forall i :: 1 <= i < |s| ==> s[i] == s[1..][i - 1];
    }
  }

  /** The characters `TrimEnd` drops are all whitespace. */
  lemma {:induction false} TrimEndDropsSpace(s: string)
    ensures forall i :: |TrimEnd(s)| <= i < |s| ==> IsSpace(s[i])
    decreases |s|
  {
    if s != [] && IsSpace(s[|s| - 1]) {
      TrimEndDropsSpace(s[..|s| - 1]);
    }
  }

  /** What `Trim` keeps is a slice of `s` with only whitespace around it,
      it does not start with whitespace, and it is empty exactly when `s` is
      whitespace only. */
  lemma TrimMiddle(s: string)
    ensures SliceAmidSpace(s, TrimEnd(TrimStart(s)))
    ensures var r := TrimEnd(TrimStart(s));
            r != [] ==> !IsSpace(r[0])
    ensures TrimEnd(TrimStart(s)) == [] <==> AllSpace(s)
  {
    var t := TrimStart(s);
    TrimStartDropsSpace(s);
    TrimEndDropsSpace(t);
    MiddleOf(s, |s| - |t|, t, TrimEnd(t));
  }

  /** Whitespace before a suffix `t` of `s` that does not start with
      whitespace, and a prefix `r` of `t` followed by whitespace only: `r` is
      a slice of `s` with only whitespace around it, it does not start with
      whitespace, and it is empty exactly when `s` is whitespace only. */
  lemma MiddleOf(s: string, k: nat, t: string, r: string)
    requires k + |t| == |s| && t == s[k..]
    requires |r| <= |t| && r == t[..|r|]
    requires forall i :: 0 <= i < k ==> IsSpace(s[i])
    requires forall j :: |r| <= j < |t| ==> IsSpace(t[j])
    requires t != [] ==> !IsSpace(t[0])
    ensures SliceAmidSpace(s, r)
    ensures r != [] ==> !IsSpace(r[0])
    ensures r == [] <==> AllSpace(s)
  {
    assert r == s[k..k + |r|];
    forall i | 0 <= i < |s| && !(k <= i < k + |r|) ensures IsSpace(s[i]) {
      if k <= i {
        assert t[i - k] == s[i];
      }
    }
    assert SpaceAround(s, k, |r|);
    if r != [] {
      assert r[0] == t[0] == s[k];
    }
  }

  /** `includes`: `pat` occurs in `text` as a contiguous substring. The empty
      string occurs in every string, and nothing longer than `text` occurs in
      it. */
  function Contains(text: string, pat: string): (found: bool)
    ensures pat == [] ==> found
    ensures found ==> |pat| <= |text|
  {
    assert pat == [] ==> OccursAt(text, pat, 0);
    exists i | 0 <= i <= |text| - |pat| :: OccursAt(text, pat, i)
  }

  /** `pat` stands in `text` starting at position `i`. */
  predicate OccursAt(text: string, pat: string, i: int) {
    0 <= i && i + |pat| <= |text| && text[i..i + |pat|] == pat
  }

  // ---------------------------------------------------------------- lemmas

  /** A string occurs in a string exactly when it is one of its substrings at a
      given position; a witness is enough to establish `Contains`. */
  lemma ContainsAt(text: string, pat: string, i: nat)
    requires i + |pat| <= |text| && text[i..i + |pat|] == pat
    ensures Contains(text, pat)
  {
    assert OccursAt(text, pat, i);
  }

  /** Lower-casing a string without upper-case letters changes nothing. */
  lemma NoUpperLower(s: string)
    requires forall i :: 0 <= i < |s| ==> !IsUpper(s[i])
    ensures ToLower(s) == s
  {
  }

  /** Lower-casing after upper-casing is lower-casing: a query and its
      upper-cased form normalise to the same string. */
  lemma {:induction false} LowerOfUpper(s: string)
    ensures ToLower(ToUpper(s)) == ToLower(s)
  {
    var l, r := ToLower(ToUpper(s)), ToLower(s);
    forall i | 0 <= i < |s| ensures l[i] == r[i] {
      assert ToUpper(s)[i] == UpperChar(s[i]);
    }
  }

  /** A lower-cased string holds no capital letter. */
  lemma LowerHasNoUpper(s: string)
    ensures forall i :: 0 <= i < |ToLower(s)| ==> !IsUpper(ToLower(s)[i])
  {
  }

  /** Lower-casing neither creates nor removes whitespace. */
  lemma LowerKeepsSpace(s: string)
    ensures AllSpace(ToLower(s)) <==> AllSpace(s)
  {
    var l := ToLower(s);
    assert forall i :: 0 <= i < |s| ==> (IsSpace(l[i]) <==> IsSpace(s[i]));
  }

  /** Lower-casing leaves whitespace where it is, so it commutes with dropping
      leading whitespace. */
  lemma {:induction false} TrimStartLower(s: string)
    ensures TrimStart(ToLower(s)) == ToLower(TrimStart(s))
    decreases |s|
  {
    if s != [] {
      assert ToLower(s)[0] == LowerChar(s[0]);
      if IsSpace(s[0]) {
        assert ToLower(s)[1..] == ToLower(s[1..]);
        TrimStartLower(s[1..]);
      }
    }
  }

  /** Lower-casing commutes with dropping trailing whitespace. */
  lemma {:induction false} TrimEndLower(s: string)
    ensures TrimEnd(ToLower(s)) == ToLower(TrimEnd(s))
    decreases |s|
  {
    if s != [] {
      assert ToLower(s)[|s| - 1] == LowerChar(s[|s| - 1]);
      if IsSpace(s[|s| - 1]) {
        assert ToLower(s)[..|s| - 1] == ToLower(s[..|s| - 1]);
        TrimEndLower(s[..|s| - 1]);
      }
    }
  }

  /** Trimming then lower-casing equals lower-casing then trimming: the order of
      the two normalisation steps does not matter. */
  lemma TrimLowerCommute(s: string)
    ensures Trim(ToLower(s)) == ToLower(Trim(s))
  {
    TrimStartLower(s);
    TrimEndLower(TrimStart(s));
  }

  /** Leading whitespace is invisible to `TrimStart`. */
  lemma {:induction false} TrimStartSkipsSpace(pre: string, s: string)
    requires AllSpace(pre)
    ensures TrimStart(pre + s) == TrimStart(s)
    decreases |pre|
  {
    if pre != [] {
      assert IsSpace(pre[0]) && AllSpace(pre[1..]);
      assert (pre + s)[0] == pre[0];
      assert (pre + s)[1..] == pre[1..] + s;
      TrimStartSkipsSpace(pre[1..], s);
    } else {
      assert pre + s == s;
    }
  }

  /** Trailing whitespace is invisible to `TrimEnd`. */
  lemma {:induction false} TrimEndSkipsSpace(s: string, post: string)
    requires AllSpace(post)
    ensures TrimEnd(s + post) == TrimEnd(s)
    decreases |post|
  {
    if post != [] {
      assert IsSpace(post[|post| - 1]) && AllSpace(post[..|post| - 1]);
      var n := |s + post|;
      assert (s + post)[n - 1] == post[|post| - 1];
      assert (s + post)[..n - 1] == s + post[..|post| - 1];
      TrimEndSkipsSpace(s, post[..|post| - 1]);
    } else {
      assert s + post == s;
    }
  }

  /** Dropping leading whitespace from `s + post`: either `s` had something
      other than whitespace, and the rest of it is kept together with `post`,
      or `s` was all whitespace and vanishes. */
  lemma {:induction false} TrimStartAppend(s: string, post: string)
    ensures TrimStart(s) != [] ==> TrimStart(s + post) == TrimStart(s) + post
    ensures TrimStart(s) == [] ==> TrimStart(s + post) == TrimStart(post)
    decreases |s|
  {
    if s == [] {
      assert s + post == post;
    } else {
      assert (s + post)[0] == s[0];
      if IsSpace(s[0]) {
        assert (s + post)[1..] == s[1..] + post;
        TrimStartAppend(s[1..], post);
      }
    }
  }

  /** Whitespace added before and after a string does not survive trimming. */
  lemma TrimIgnoresPadding(pre: string, s: string, post: string)
    requires AllSpace(pre) && AllSpace(post)
    ensures Trim(pre + s + post) == Trim(s)
  {
    assert pre + s + post == pre + (s + post);
    TrimStartSkipsSpace(pre, s + post);
    TrimStartAppend(s, post);
    if TrimStart(s) == [] {
      TrimStartSkipsSpace(post, []);
      assert post + [] == post;
    } else {
      TrimEndSkipsSpace(TrimStart(s), post);
    }
  }
}
