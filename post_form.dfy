/** The new-post form of apps/web/src/app/dashboard/page.tsx: the slug derived from the title
    on every title change, and the field rules the form validates a post against. */
module PostForm {
  import opened Wrappers

  predicate IsLowerAlnum(c: char) {
    'a' <= c <= 'z' || '0' <= c <= '9'
  }

  /** The characters of the slug pattern `[a-z0-9-]`. */
  predicate IsSlugChar(c: char) {
    IsLowerAlnum(c) || c == '-'
  }

  /** JavaScript's `\s`: the ASCII whitespace, the no-break and other Unicode spaces, the line
      and paragraph separators and the byte-order mark. */
  predicate IsWhitespace(c: char) {
    var n := c as int;
    n == 0x09 || n == 0x0A || n == 0x0B || n == 0x0C || n == 0x0D || n == 0x20 || n == 0xA0 ||
    n == 0x1680 || (0x2000 <= n <= 0x200A) || n == 0x2028 || n == 0x2029 || n == 0x202F ||
    n == 0x205F || n == 0x3000 || n == 0xFEFF
  }

  ghost predicate AllSlugChars(s: string) {
    forall i :: 0 <= i < |s| ==> IsSlugChar(s[i])
  }

  /** No two dashes in a row. */
  ghost predicate NoDoubleDash(s: string) {
    |s| < 2 || ((s[0] != '-' || s[1] != '-') && NoDoubleDash(s[1..]))
  }

  lemma {:induction false} NoDoubleDashPrefix(a: string, b: string)
    requires NoDoubleDash(a + b)
    ensures NoDoubleDash(a)
  {
    if |a| >= 2 {
      assert (a + b)[1..] == a[1..] + b;
      NoDoubleDashPrefix(a[1..], b);
    }
  }

  lemma {:induction false} NoDoubleDashAtEnd(s: string)
    requires |s| >= 2 && NoDoubleDash(s)
    ensures s[|s| - 2] != '-' || s[|s| - 1] != '-'
  {
    if |s| > 2 {
      NoDoubleDashAtEnd(s[1..]);
    }
  }

  ghost predicate NoEdgeDash(s: string) {
    s != [] ==> s[0] != '-' && s[|s| - 1] != '-'
  }

  /** The letters and digits of `s`, in order. */
  function Alnums(s: string): string {
    if s == [] then [] else (if IsLowerAlnum(s[0]) then [s[0]] else []) + Alnums(s[1..])
  }

  lemma {:induction false} AlnumsAppend(a: string, b: string)
    ensures Alnums(a + b) == Alnums(a) + Alnums(b)
  {
    if a == [] {
      assert a + b == b;
    } else {
      var ab := a + b;
      assert ab[0] == a[0] && ab[1..] == a[1..] + b;
      AlnumsAppend(a[1..], b);
      assert Alnums(ab) == (if IsLowerAlnum(a[0]) then [a[0]] else []) + Alnums(a[1..] + b);
    }
  }

  /** `toLowerCase` of one character, for the characters whose lower case can reach the slug:
      ASCII capitals, U+0130 (which lowers to `i` and a combining dot) and the Kelvin sign
      U+212A (which lowers to `k`). Any other character is kept; its lower case is neither in
      `[a-z0-9-]` nor whitespace, so the slug drops it either way. */
  function LowerChar(c: char): (r: string)
    ensures 1 <= |r| <= 2
    ensures IsWhitespace(c) ==> r == [c]
    ensures 'A' <= c <= 'Z' ==> r == [(c as int + 32) as char] && IsLowerAlnum(r[0])
    ensures c as int < 128 && !('A' <= c <= 'Z') ==> r == [c]
  {
    if 'A' <= c <= 'Z' then [(c as int + 32) as char]
    else if c as int == 0x130 then ['i', 0x307 as char]
    else if c as int == 0x212A then ['k']
    else [c]
  }

  function LowerCase(s: string): string {
    if s == [] then [] else LowerChar(s[0]) + LowerCase(s[1..])
  }

  /** On ASCII text lowering works character by character: capitals become small letters and
      every other character stays. */
  lemma {:induction false} LowerCaseAscii(s: string)
    requires forall i :: 0 <= i < |s| ==> s[i] as int < 128
    ensures |LowerCase(s)| == |s|
    ensures forall i :: 0 <= i < |s| ==> LowerCase(s)[i] == if 'A' <= s[i] <= 'Z' then (s[i] as int + 32) as char else s[i]
  {
    if s != [] {
      LowerCaseAscii(s[1..]);
      var head := LowerChar(s[0]);
      assert |head| == 1;
      assert LowerCase(s) == head + LowerCase(s[1..]);
      forall i | 1 <= i < |s|
        ensures LowerCase(s)[i] == LowerCase(s[1..])[i - 1] && s[i] == s[1..][i - 1]
      {
      }
    }
  }

  /** `.replace(/\s+/g, "-")`: each maximal run of whitespace becomes one dash; `inRun` says
      whether the character before `s` was whitespace. */
  function DashWhitespace(s: string, inRun: bool): string {
    if s == [] then []
    else if IsWhitespace(s[0]) then (if inRun then [] else ['-']) + DashWhitespace(s[1..], true)
    else [s[0]] + DashWhitespace(s[1..], false)
  }

  /** No whitespace is left, a string without whitespace comes out unchanged, and the
      letters and digits stay as they were. */
  lemma {:induction false} DashWhitespaceShape(s: string, inRun: bool)
    ensures var r := DashWhitespace(s, inRun);
            && (forall i :: 0 <= i < |r| ==> !IsWhitespace(r[i]))
            && ((forall i :: 0 <= i < |s| ==> !IsWhitespace(s[i])) ==> r == s)
            && Alnums(r) == Alnums(s)
  {
    if s != [] {
      var ws := IsWhitespace(s[0]);
      DashWhitespaceShape(s[1..], ws);
      var rest := DashWhitespace(s[1..], ws);
      if ws {
        AlnumsAppend(if inRun then [] else ['-'], rest);
      } else {
        AlnumsAppend([s[0]], rest);
        assert s == [s[0]] + s[1..];
      }
    }
  }

  /** Whether the character before `b` is whitespace, when `b` follows `a`, which itself
      follows a character that is whitespace exactly when `inRun`. */
  predicate EndsInWhitespace(a: string, inRun: bool) {
    if a == [] then inRun else IsWhitespace(a[|a| - 1])
  }

  /** The whitespace pass works left to right, carrying only whether the last character
      was whitespace. */
  lemma {:induction false} DashWhitespaceAppend(a: string, b: string, inRun: bool)
    ensures DashWhitespace(a + b, inRun) == DashWhitespace(a, inRun) + DashWhitespace(b, EndsInWhitespace(a, inRun))
  {
    if a == [] {
      assert a + b == b;
    } else {
      var head := if IsWhitespace(a[0]) then (if inRun then [] else ['-']) else [a[0]];
      var f := IsWhitespace(a[0]);
      var y := DashWhitespace(b, EndsInWhitespace(a, inRun));
      assert EndsInWhitespace(a[1..], f) == EndsInWhitespace(a, inRun) by {
        if |a| > 1 {
          assert a[1..][|a[1..]| - 1] == a[|a| - 1];
        }
      }
      calc {
        DashWhitespace(a + b, inRun);
        { assert (a + b)[0] == a[0] && (a + b)[1..] == a[1..] + b; }
        head + DashWhitespace(a[1..] + b, f);
        { DashWhitespaceAppend(a[1..], b, f); }
        head + (DashWhitespace(a[1..], f) + y);
        (head + DashWhitespace(a[1..], f)) + y;
        DashWhitespace(a, inRun) + y;
      }
    }
  }

  /** A run of whitespace alone gives one dash, or none when it continues a run. */
  lemma {:induction false} DashWhitespaceOfRun(w: string, inRun: bool)
    requires w != [] && forall i :: 0 <= i < |w| ==> IsWhitespace(w[i])
    ensures DashWhitespace(w, inRun) == if inRun then [] else ['-']
  {
    if |w| > 1 {
      DashWhitespaceOfRun(w[1..], true);
    }
  }

  /** Between two pieces that do not touch it with whitespace, a whitespace run becomes
      exactly one dash and the pieces are handled as if apart. */
  lemma DashWhitespaceRun(a: string, w: string, b: string)
    requires a == [] || !IsWhitespace(a[|a| - 1])
    requires w != [] && forall i :: 0 <= i < |w| ==> IsWhitespace(w[i])
    requires b == [] || !IsWhitespace(b[0])
    ensures DashWhitespace(a + w + b, false) == DashWhitespace(a, false) + "-" + DashWhitespace(b, false)
  {
    DashWhitespaceAppend(a + w, b, false);
    DashWhitespaceAppend(a, w, false);
    DashWhitespaceOfRun(w, false);
    assert EndsInWhitespace(a + w, false) by {
      assert (a + w)[|a + w| - 1] == w[|w| - 1];
    }
    if b != [] {
      assert DashWhitespace(b, true) == DashWhitespace(b, false);
    }
  }

  /** `.replace(/[^a-z0-9-]/g, "")`: keeps the characters of the slug pattern. */
  function KeepSlugChars(s: string): string {
    if s == [] then [] else (if IsSlugChar(s[0]) then [s[0]] else []) + KeepSlugChars(s[1..])
  }

  /** Only `[a-z0-9-]` is left, a string made of it comes out unchanged, and the letters and
      digits stay as they were. */
  lemma {:induction false} KeepSlugCharsShape(s: string)
    ensures var r := KeepSlugChars(s);
            && AllSlugChars(r)
            && (AllSlugChars(s) ==> r == s)
            && Alnums(r) == Alnums(s)
  {
    if s != [] {
      KeepSlugCharsShape(s[1..]);
      AlnumsAppend(if IsSlugChar(s[0]) then [s[0]] else [], KeepSlugChars(s[1..]));
      assert s == [s[0]] + s[1..];
    }
  }

  lemma {:induction false} KeepSlugCharsAppend(a: string, b: string)
    ensures KeepSlugChars(a + b) == KeepSlugChars(a) + KeepSlugChars(b)
  {
    if a == [] {
      assert a + b == b;
    } else {
      assert (a + b)[0] == a[0] && (a + b)[1..] == a[1..] + b;
      KeepSlugCharsAppend(a[1..], b);
    }
  }

  /** Wherever it stands, a character of `[a-z0-9-]`, a dash included, is kept in its place,
      and any other character is dropped without touching its neighbours. */
  lemma KeepSlugCharsAt(a: string, c: char, b: string)
    ensures KeepSlugChars(a + [c] + b) == KeepSlugChars(a) + (if IsSlugChar(c) then [c] else []) + KeepSlugChars(b)
  {
    KeepSlugCharsAppend(a + [c], b);
    KeepSlugCharsAppend(a, [c]);
    assert KeepSlugChars([c]) == (if IsSlugChar(c) then [c] else []) + KeepSlugChars([c][1..]);
  }

  /** `.replace(/-+/g, "-")`: each run of dashes becomes one dash; `inRun` says whether the
      character before `s` was a kept dash. */
  function CollapseDashes(s: string, inRun: bool): string {
    if s == [] then []
    else if s[0] == '-' then (if inRun then [] else ['-']) + CollapseDashes(s[1..], true)
    else [s[0]] + CollapseDashes(s[1..], false)
  }

  /** No two dashes in a row are left, no dash opens a run continued from before, the
      characters stay within `[a-z0-9-]` when they were, and the letters and digits stay. */
  lemma {:induction false} CollapseDashesShape(s: string, inRun: bool)
    ensures var r := CollapseDashes(s, inRun);
            && (AllSlugChars(s) ==> AllSlugChars(r))
            && NoDoubleDash(r)
            && (inRun && r != [] ==> r[0] != '-')
            && Alnums(r) == Alnums(s)
  {
    if s != [] {
      var dash := s[0] == '-';
      CollapseDashesShape(s[1..], dash);
      var rest := CollapseDashes(s[1..], dash);
      if dash {
        AlnumsAppend(if inRun then [] else ['-'], rest);
        PrependKeepsShape('-', rest);
        assert [] + rest == rest;
      } else {
        AlnumsAppend([s[0]], rest);
        PrependKeepsShape(s[0], rest);
      }
    }
  }

  lemma PrependKeepsShape(c: char, rest: string)
    requires NoDoubleDash(rest) && (c == '-' ==> rest == [] || rest[0] != '-')
    ensures NoDoubleDash([c] + rest)
    ensures AllSlugChars(rest) && IsSlugChar(c) ==> AllSlugChars([c] + rest)
  {
  }

  /** Whether the character before `b` is a dash, when `b` follows `a`, which itself
      follows a dash exactly when `inRun`. */
  predicate EndsInDash(a: string, inRun: bool) {
    if a == [] then inRun else a[|a| - 1] == '-'
  }

  /** The dash pass works left to right, carrying only whether the last character was a dash. */
  lemma {:induction false} CollapseDashesAppend(a: string, b: string, inRun: bool)
    ensures CollapseDashes(a + b, inRun) == CollapseDashes(a, inRun) + CollapseDashes(b, EndsInDash(a, inRun))
  {
    if a == [] {
      assert a + b == b;
    } else {
      var head := if a[0] == '-' then (if inRun then [] else ['-']) else [a[0]];
      var f := a[0] == '-';
      var y := CollapseDashes(b, EndsInDash(a, inRun));
      assert EndsInDash(a[1..], f) == EndsInDash(a, inRun) by {
        if |a| > 1 {
          assert a[1..][|a[1..]| - 1] == a[|a| - 1];
        }
      }
      calc {
        CollapseDashes(a + b, inRun);
        { assert (a + b)[0] == a[0] && (a + b)[1..] == a[1..] + b; }
        head + CollapseDashes(a[1..] + b, f);
        { CollapseDashesAppend(a[1..], b, f); }
        head + (CollapseDashes(a[1..], f) + y);
        (head + CollapseDashes(a[1..], f)) + y;
        CollapseDashes(a, inRun) + y;
      }
    }
  }

  ghost predicate AllDashes(d: string) {
    forall i :: 0 <= i < |d| ==> d[i] == '-'
  }

  /** A run of dashes alone gives one dash, or none when it continues a run. */
  lemma {:induction false} CollapseDashesOfRun(d: string, inRun: bool)
    requires d != [] && AllDashes(d)
    ensures CollapseDashes(d, inRun) == if inRun then [] else ['-']
  {
    if |d| > 1 {
      CollapseDashesOfRun(d[1..], true);
    }
  }

  /** Between two pieces that do not touch it with a dash, a run of dashes becomes exactly
      one dash and the pieces are handled as if apart. */
  lemma CollapseDashesRun(a: string, d: string, b: string)
    requires a == [] || a[|a| - 1] != '-'
    requires d != [] && AllDashes(d)
    requires b == [] || b[0] != '-'
    ensures CollapseDashes(a + d + b, false) == CollapseDashes(a, false) + "-" + CollapseDashes(b, false)
  {
    CollapseDashesAppend(a + d, b, false);
    CollapseDashesAppend(a, d, false);
    CollapseDashesOfRun(d, false);
    assert EndsInDash(a + d, false) by {
      assert (a + d)[|a + d| - 1] == d[|d| - 1];
    }
    if b != [] {
      assert CollapseDashes(b, true) == CollapseDashes(b, false);
    }
  }

  /** `.replace(/^-|-$/g, "")`: drops one leading and one trailing dash and nothing else; a
      lone dash is both, and goes once. */
  function TrimDashes(s: string): (r: string)
    ensures s == (if s != [] && s[0] == '-' then "-" else []) + r + (if |s| >= 2 && s[|s| - 1] == '-' then "-" else [])
  {
    var t := if |s| > 0 && s[0] == '-' then s[1..] else s;
    if |t| > 0 && t[|t| - 1] == '-' then t[..|t| - 1] else t
  }

  /** Trimming keeps the characters within `[a-z0-9-]` when they were and the letters and
      digits, and leaves a string without double dashes with no dash at either end. */
  lemma TrimDashesShape(s: string)
    ensures var r := TrimDashes(s);
            && (AllSlugChars(s) ==> AllSlugChars(r))
            && (NoDoubleDash(s) ==> NoDoubleDash(r) && NoEdgeDash(r))
            && Alnums(r) == Alnums(s)
  {
    var r := TrimDashes(s);
    var lead: string := if s != [] && s[0] == '-' then "-" else [];
    var trail: string := if |s| >= 2 && s[|s| - 1] == '-' then "-" else [];
    assert s == lead + r + trail;
    DropDashesKeepsAlnums(lead, r, trail);
    DropDashesKeepsShape(lead, r, trail);
    if NoDoubleDash(s) && r != [] {
      if lead != [] {
        assert r[0] == s[1];
      }
      if trail != [] {
        assert r[|r| - 1] == s[|s| - 2];
        NoDoubleDashAtEnd(s);
      }
    }
  }

  lemma DropDashesKeepsAlnums(lead: string, r: string, trail: string)
    requires lead == [] || lead == "-"
    requires trail == [] || trail == "-"
    ensures Alnums(lead + r + trail) == Alnums(r)
  {
    AlnumsAppend(lead + r, trail);
    AlnumsAppend(lead, r);
  }

  lemma DropDashesKeepsShape(lead: string, r: string, trail: string)
    requires lead == [] || lead == "-"
    requires trail == [] || trail == "-"
    ensures AllSlugChars(lead + r + trail) ==> AllSlugChars(r)
    ensures NoDoubleDash(lead + r + trail) ==> NoDoubleDash(r)
  {
    var s := lead + r + trail;
    forall i | 0 <= i < |r|
      ensures r[i] == s[|lead| + i]
    {
    }
    if NoDoubleDash(s) {
      if lead == [] {
        assert s == r + trail;
      } else if |s| >= 2 {
        assert s[1..] == r + trail;
      }
      NoDoubleDashPrefix(r, trail);
    }
  }

  /** The slug `handleTitleChange` derives from a title. */
  function Slug(title: string): string {
    TrimDashes(CollapseDashes(KeepSlugChars(DashWhitespace(LowerCase(title), false)), false))
  }

  /** A slug holds only `[a-z0-9-]`, never two dashes in a row, and no dash at either end. */
  lemma SlugShape(title: string)
    ensures AllSlugChars(Slug(title)) && NoDoubleDash(Slug(title)) && NoEdgeDash(Slug(title))
  {
    SlugStages(title);
  }

  /** The letters and digits of the lowered title are those of the slug, in order. */
  lemma SlugKeepsAlnums(title: string)
    ensures Alnums(Slug(title)) == Alnums(LowerCase(title))
  {
    SlugStages(title);
  }

  lemma SlugStages(title: string)
    ensures AllSlugChars(Slug(title)) && NoDoubleDash(Slug(title)) && NoEdgeDash(Slug(title))
    ensures Alnums(Slug(title)) == Alnums(LowerCase(title))
  {
    var d := DashWhitespace(LowerCase(title), false);
    var k := KeepSlugChars(d);
    var c := CollapseDashes(k, false);
    DashWhitespaceShape(LowerCase(title), false);
    KeepSlugCharsShape(d);
    CollapseDashesShape(k, false);
    TrimDashesShape(c);
  }

  /** The slug is empty exactly when the lowered title has no letter or digit. */
  lemma SlugEmptyIff(title: string)
    ensures Slug(title) == [] <==> Alnums(LowerCase(title)) == []
  {
    SlugShape(title);
    SlugKeepsAlnums(title);
    EdgeFreeHasAlnum(Slug(title));
  }

  /** A non-empty string of `[a-z0-9-]` that starts with no dash starts with a letter or digit. */
  lemma EdgeFreeHasAlnum(s: string)
    requires AllSlugChars(s) && NoEdgeDash(s)
    ensures s == [] <==> Alnums(s) == []
  {
    if s != [] {
      assert IsLowerAlnum(s[0]);
      assert s == [s[0]] + s[1..];
      AlnumsAppend([s[0]], s[1..]);
    }
  }

  /** Lowering leaves `[a-z0-9-]` and whitespace alone. */
  lemma {:induction false} LowerCaseKeeps(s: string)
    requires forall i :: 0 <= i < |s| ==> IsSlugChar(s[i]) || IsWhitespace(s[i])
    ensures LowerCase(s) == s
  {
    if s != [] {
      LowerCaseKeeps(s[1..]);
    }
  }

  lemma {:induction false} CollapseDashesOfCollapsed(s: string, inRun: bool)
    requires NoDoubleDash(s) && (inRun ==> s == [] || s[0] != '-')
    ensures CollapseDashes(s, inRun) == s
  {
    if s != [] {
      CollapseDashesOfCollapsed(s[1..], s[0] == '-');
      assert s == [s[0]] + s[1..];
    }
  }

  /** Deriving a slug from a slug changes nothing. */
  lemma SlugIdempotent(title: string)
    ensures Slug(Slug(title)) == Slug(title)
  {
    var s := Slug(title);
    SlugShape(title);
    assert LowerCase(s) == s by {
      LowerCaseKeeps(s);
    }
    assert DashWhitespace(s, false) == s by {
      assert forall i :: 0 <= i < |s| ==> !IsWhitespace(s[i]);
      DashWhitespaceShape(s, false);
    }
    assert KeepSlugChars(s) == s by {
      KeepSlugCharsShape(s);
    }
    assert CollapseDashes(s, false) == s by {
      CollapseDashesOfCollapsed(s, false);
    }
    assert TrimDashes(s) == s by {
      if s != [] {
        assert s[0] != '-' && s[|s| - 1] != '-';
      }
    }
  }

  /** A title made only of ASCII letters and digits gives its lower-cased self: nothing is
      inserted between its characters and nothing is dropped. */
  lemma SlugOfWord(t: string)
    requires forall i :: 0 <= i < |t| ==> 'A' <= t[i] <= 'Z' || IsLowerAlnum(t[i])
    ensures Slug(t) == LowerCase(t)
  {
    LowerWord(t);
    WordPassesStages(LowerCase(t));
  }

  lemma LowerWord(t: string)
    requires forall i :: 0 <= i < |t| ==> 'A' <= t[i] <= 'Z' || IsLowerAlnum(t[i])
    ensures AllLowerAlnum(LowerCase(t))
  {
    LowerCaseAscii(t);
  }

  ghost predicate AllLowerAlnum(s: string) {
    forall i :: 0 <= i < |s| ==> IsLowerAlnum(s[i])
  }

  /** Every stage after lowering leaves a word of small letters and digits as it is. */
  lemma WordPassesStages(l: string)
    requires AllLowerAlnum(l)
    ensures TrimDashes(CollapseDashes(KeepSlugChars(DashWhitespace(l, false)), false)) == l
  {
    assert DashWhitespace(l, false) == l by {
      assert forall i :: 0 <= i < |l| ==> !IsWhitespace(l[i]);
      DashWhitespaceShape(l, false);
    }
    assert KeepSlugChars(l) == l by {
      assert AllSlugChars(l);
      KeepSlugCharsShape(l);
    }
    assert CollapseDashes(l, false) == l by {
      assert forall i :: 0 <= i < |l| ==> l[i] != '-';
      NoDashNoDoubleDash(l);
      CollapseDashesOfCollapsed(l, false);
    }
    assert TrimDashes(l) == l by {
      if l != [] {
        assert l[0] != '-' && l[|l| - 1] != '-';
      }
    }
  }

  lemma {:induction false} NoDashNoDoubleDash(s: string)
    requires forall i :: 0 <= i < |s| ==> s[i] != '-'
    ensures NoDoubleDash(s)
  {
    if |s| >= 2 {
      NoDashNoDoubleDash(s[1..]);
    }
  }

  predicate IsSeparator(c: char) {
    IsWhitespace(c) || c == '-'
  }

  lemma {:induction false} LowerCaseAppend(a: string, b: string)
    ensures LowerCase(a + b) == LowerCase(a) + LowerCase(b)
  {
    if a == [] {
      assert a + b == b;
    } else {
      assert (a + b)[0] == a[0] && (a + b)[1..] == a[1..] + b;
      LowerCaseAppend(a[1..], b);
    }
  }

  /** Each whitespace character as a dash, every other character kept. */
  ghost function DashEach(s: string): (r: string)
    ensures |r| == |s|
    ensures forall i :: 0 <= i < |s| ==> r[i] == if IsWhitespace(s[i]) then '-' else s[i]
  {
    if s == [] then [] else [if IsWhitespace(s[0]) then '-' else s[0]] + DashEach(s[1..])
  }

  /** The slug before its edges are trimmed. */
  ghost function Untrimmed(lowered: string): string {
    CollapseDashes(KeepSlugChars(DashWhitespace(lowered, false)), false)
  }

  /** Once dash runs are collapsed it does not matter that a whitespace run gave one dash
      rather than one dash per character. */
  lemma {:induction false} DashRunsLikeEach(s: string, inRun: bool, dashRun: bool)
    requires inRun ==> dashRun
    ensures CollapseDashes(KeepSlugChars(DashWhitespace(s, inRun)), dashRun)
            == CollapseDashes(KeepSlugChars(DashEach(s)), dashRun)
  {
    if s != [] {
      var c := s[0];
      var ws := IsWhitespace(c);
      var p := if ws then (if inRun then [] else "-") else KeepSlugChars([c]);
      var q := KeepSlugChars([if ws then '-' else c]);
      var x := KeepSlugChars(DashWhitespace(s[1..], ws));
      var y := KeepSlugChars(DashEach(s[1..]));
      assert KeepSlugChars(DashWhitespace(s, inRun)) == p + x by {
        if ws {
          assert DashWhitespace(s, inRun) == (if inRun then [] else "-") + DashWhitespace(s[1..], true);
          KeepSlugCharsAppend(if inRun then [] else "-", DashWhitespace(s[1..], true));
        } else {
          assert DashWhitespace(s, inRun) == [c] + DashWhitespace(s[1..], false);
          KeepSlugCharsAppend([c], DashWhitespace(s[1..], false));
        }
      }
      assert KeepSlugChars(DashEach(s)) == q + y by {
        assert DashEach(s) == [if ws then '-' else c] + DashEach(s[1..]);
        KeepSlugCharsAppend([if ws then '-' else c], DashEach(s[1..]));
      }
      assert CollapseDashes(p, dashRun) == CollapseDashes(q, dashRun) && EndsInDash(p, dashRun) == EndsInDash(q, dashRun) by {
        if ws {
          assert q == "-";
        }
      }
      DashRunsLikeEach(s[1..], ws, EndsInDash(p, dashRun));
      CollapseDashesAppend(p, x, dashRun);
      CollapseDashesAppend(q, y, dashRun);
    }
  }

  /** A pass that ends on a dash ends its output on a dash, unless the output is empty. */
  lemma {:induction false} CollapseDashesEndsInDash(s: string, inRun: bool)
    requires s != [] && s[|s| - 1] == '-'
    ensures CollapseDashes(s, inRun) == [] || CollapseDashes(s, inRun)[|CollapseDashes(s, inRun)| - 1] == '-'
  {
    var init := s[..|s| - 1];
    assert s == init + "-";
    CollapseDashesAppend(init, "-", inRun);
    if EndsInDash(init, inRun) && init != [] {
      CollapseDashesEndsInDash(init, inRun);
    }
  }

  /** Trimming a string that is one dash or none on each side of a part with no edge dash
      gives that part. */
  lemma TrimAround(l: string, m: string, e: string)
    requires l == [] || l == "-"
    requires e == [] || e == "-"
    requires m != [] && m[0] != '-' && m[|m| - 1] != '-'
    ensures TrimDashes(l + m + e) == m
  {
    var s := l + m + e;
    assert s[0] == if l == [] then m[0] else '-';
    assert s[|s| - 1] == if e == [] then m[|m| - 1] else '-';
    var r := TrimDashes(s);
    assert s == l + r + e;
    assert r == s[|l|..|s| - |e|];
  }

  /** A dash-ended string that adds at most one dash to `x` is `x`'s trim between `x`'s
      leading dash, if any, and one dash. */
  lemma DashEnded(x: string, z: string)
    requires z == x || z == x + "-"
    requires z != [] && z[|z| - 1] == '-' && NoDoubleDash(z)
    requires TrimDashes(x) != []
    ensures z == (if x[0] == '-' then "-" else []) + TrimDashes(x) + "-"
  {
    var tx := TrimDashes(x);
    if z == x + "-" && |x| >= 1 {
      assert z[|x| - 1] == x[|x| - 1];
      NoDoubleDashAtEnd(z);
    }
    assert x == (if x[0] == '-' then "-" else []) + tx + (if |x| >= 2 && x[|x| - 1] == '-' then "-" else []);
  }

  /** A string with no leading dash, after an optional dash, is that pair's trim followed by
      its own trailing dash, if any. */
  lemma UndashedStart(p: string, y: string)
    requires p == [] || p == "-"
    requires y == [] || y[0] != '-'
    requires TrimDashes(p + y) != []
    ensures y != [] && y == TrimDashes(p + y) + (if y[|y| - 1] == '-' then "-" else [])
  {
    var s := p + y;
    var r := TrimDashes(s);
    assert s == (if s != [] && s[0] == '-' then "-" else []) + r + (if |s| >= 2 && s[|s| - 1] == '-' then "-" else []);
    assert y != [];
    assert (s[0] == '-') == (p == "-");
    assert s[|s| - 1] == y[|y| - 1];
  }

  /** The dash pass over `a`, a non-empty run of dashes and `b`: `z` is the pass over `a` and
      the run, `y` the pass over `b` as continuing a run, and the pass over `b` alone is `y`
      after at most one dash. */
  lemma CollapseAcrossRun(a: string, d: string, b: string)
    requires d != [] && AllDashes(d)
    ensures var x, z, y := CollapseDashes(a, false), CollapseDashes(a + d, false), CollapseDashes(b, true);
            && CollapseDashes(a + d + b, false) == z + y
            && (z == x || z == x + "-") && z != [] && z[|z| - 1] == '-' && NoDoubleDash(z)
            && CollapseDashes(b, false) == (if b != [] && b[0] == '-' then "-" else []) + y
            && (y == [] || y[0] != '-')
  {
    var x, z, y := CollapseDashes(a, false), CollapseDashes(a + d, false), CollapseDashes(b, true);
    assert (a + d)[|a + d| - 1] == '-';
    assert CollapseDashes(a + d + b, false) == z + y by {
      CollapseDashesAppend(a + d, b, false);
    }
    assert z == x || z == x + "-" by {
      CollapseDashesAppend(a, d, false);
      CollapseDashesOfRun(d, EndsInDash(a, false));
    }
    assert z != [] && z[|z| - 1] == '-' by {
      assert z[0] == if (a + d)[0] == '-' then '-' else (a + d)[0];
      CollapseDashesEndsInDash(a + d, false);
    }
    assert NoDoubleDash(z) by {
      CollapseDashesShape(a + d, false);
    }
    assert y == [] || y[0] != '-' by {
      CollapseDashesShape(b, true);
    }
  }

  /** Lowered titles joined by a run of whitespace and dashes: the untrimmed slug is the
      dash pass over the three pieces with every whitespace character as a dash. */
  lemma UntrimmedOfJoin(lu: string, w: string, lv: string)
    requires forall i :: 0 <= i < |w| ==> IsSeparator(w[i])
    ensures Untrimmed(lu + w + lv)
            == CollapseDashes(KeepSlugChars(DashEach(lu)) + DashEach(w) + KeepSlugChars(DashEach(lv)), false)
  {
    var a, d, b := DashEach(lu), DashEach(w), DashEach(lv);
    DashRunsLikeEach(lu + w + lv, false, false);
    assert DashEach(lu + w + lv) == a + d + b by {
      DashEachAppend(lu + w, lv);
      DashEachAppend(lu, w);
    }
    assert KeepSlugChars(a + d + b) == KeepSlugChars(a) + d + KeepSlugChars(b) by {
      KeepSlugCharsAppend(a + d, b);
      KeepSlugCharsAppend(a, d);
      assert AllSlugChars(d);
      KeepSlugCharsShape(d);
    }
  }

  lemma DashEachAppend(a: string, b: string)
    ensures DashEach(a + b) == DashEach(a) + DashEach(b)
  {
    assert forall i :: 0 <= i < |a + b| ==> DashEach(a + b)[i] == (DashEach(a) + DashEach(b))[i];
  }

  lemma UntrimmedSeparator(lu: string, w: string, lv: string)
    requires w != [] && forall i :: 0 <= i < |w| ==> IsSeparator(w[i])
    requires TrimDashes(Untrimmed(lu)) != [] && TrimDashes(Untrimmed(lv)) != []
    ensures TrimDashes(Untrimmed(lu + w + lv)) == TrimDashes(Untrimmed(lu)) + "-" + TrimDashes(Untrimmed(lv))
  {
    var a, d, b := KeepSlugChars(DashEach(lu)), DashEach(w), KeepSlugChars(DashEach(lv));
    assert d != [] && AllDashes(d);
    var x, z, y := CollapseDashes(a, false), CollapseDashes(a + d, false), CollapseDashes(b, true);
    var p: string := if b != [] && b[0] == '-' then "-" else [];
    assert Untrimmed(lu + w + lv) == z + y && Untrimmed(lu) == x && Untrimmed(lv) == p + y
           && CollapseDashes(b, false) == p + y
           && (z == x || z == x + "-") && z != [] && z[|z| - 1] == '-' && NoDoubleDash(z)
           && (y == [] || y[0] != '-') by {
      UntrimmedOfJoin(lu, w, lv);
      DashRunsLikeEach(lu, false, false);
      DashRunsLikeEach(lv, false, false);
      CollapseAcrossRun(a, d, b);
    }
    assert NoDoubleDash(x) && NoDoubleDash(p + y) by {
      CollapseDashesShape(a, false);
      CollapseDashesShape(b, false);
    }
    TrimJoin(x, z, p, y);
  }

  /** Trimming `x` with a dash after it (already there or added), then `y` after at most one
      dash: the trims of the two sides around one dash. */
  lemma TrimJoin(x: string, z: string, p: string, y: string)
    requires z == x || z == x + "-"
    requires z != [] && z[|z| - 1] == '-' && NoDoubleDash(z)
    requires p == [] || p == "-"
    requires y == [] || y[0] != '-'
    requires NoDoubleDash(x) && NoDoubleDash(p + y)
    requires TrimDashes(x) != [] && TrimDashes(p + y) != []
    ensures TrimDashes(z + y) == TrimDashes(x) + "-" + TrimDashes(p + y)
  {
    var tx, ty := TrimDashes(x), TrimDashes(p + y);
    assert tx[0] != '-' by {
      TrimDashesShape(x);
    }
    assert ty[|ty| - 1] != '-' by {
      TrimDashesShape(p + y);
    }
    var lx: string := if x[0] == '-' then "-" else [];
    var ey: string := if y[|y| - 1] == '-' then "-" else [];
    assert z == lx + tx + "-" by {
      DashEnded(x, z);
    }
    assert y == ty + ey by {
      UndashedStart(p, y);
    }
    Regroup(lx, tx, ty, ey);
    TrimAround(lx, tx + "-" + ty, ey);
  }

  lemma Regroup(l: string, t: string, u: string, e: string)
    ensures (l + t + "-") + (u + e) == l + (t + "-" + u) + e
  {
  }

  /** Titles joined by a run of whitespace and dashes give their slugs joined by one dash,
      when neither slug is empty. */
  lemma SlugSeparator(u: string, w: string, v: string)
    requires Slug(u) != [] && Slug(v) != []
    requires w != [] && forall i :: 0 <= i < |w| ==> IsSeparator(w[i])
    ensures Slug(u + w + v) == Slug(u) + "-" + Slug(v)
  {
    assert LowerCase(u + w + v) == LowerCase(u) + w + LowerCase(v) by {
      LowerCaseAppend(u + w, v);
      LowerCaseAppend(u, w);
      LowerCaseKeeps(w);
    }
    UntrimmedSeparator(LowerCase(u), w, LowerCase(v));
  }

  /** A post as the form submits it. */
  datatype Post = Post(title: string, slug: string, body: string, excerpt: Option<string>, format: string,
                       isCommentable: Option<bool>, isFeatured: Option<bool>, coverImageId: Option<string>)

  /** The form's defaults. */
  const BlankPost: Post := Post("", "", "", None, "markdown", Some(true), Some(false), None)

  /** The validation messages the schema can report. */
  datatype Issue = TitleRequired | TitleTooLong | SlugRequired | SlugInvalid | BodyRequired | ExcerptTooLong | FormatInvalid

  /** `^[a-z0-9-]+$` */
  predicate MatchesSlugPattern(s: string) {
    |s| >= 1 && forall i :: 0 <= i < |s| ==> IsSlugChar(s[i])
  }

  /** Whether `p` breaks the rule that reports `issue`. */
  predicate Breaks(p: Post, issue: Issue) {
    match issue
    case TitleRequired => |p.title| < 1
    case TitleTooLong => |p.title| > 128
    case SlugRequired => |p.slug| < 1
    case SlugInvalid => !MatchesSlugPattern(p.slug)
    case BodyRequired => |p.body| < 1
    case ExcerptTooLong => p.excerpt.Some? && |p.excerpt.value| > 255
    case FormatInvalid => p.format != "markdown" && p.format != "html"
  }

  /** The schema's rules in field order. */
  const SchemaRules: seq<Issue> := [TitleRequired, TitleTooLong, SlugRequired, SlugInvalid, BodyRequired, ExcerptTooLong, FormatInvalid]

  predicate Distinct(s: seq<Issue>) {
    forall i, k :: 0 <= i < k < |s| ==> s[i] != s[k]
  }

  /** The rules of `rules` that `p` breaks, in the same order. */
  function BrokenRules(p: Post, rules: seq<Issue>): (r: seq<Issue>)
    ensures forall j :: j in r <==> j in rules && Breaks(p, j)
    ensures |r| <= |rules|
    ensures Distinct(rules) ==> Distinct(r)
  {
    if rules == [] then []
    else
      var rest := BrokenRules(p, rules[1..]);
      assert Distinct(rules) ==> Distinct(rules[1..]) && rules[0] !in rules[1..];
      (if Breaks(p, rules[0]) then [rules[0]] else []) + rest
  }

  /** Every rule of the post schema that `p` breaks, in the schema's field order, each
      reported once; an empty slug breaks both the required rule and the pattern. */
  function Issues(p: Post): (r: seq<Issue>)
    ensures forall j :: j in r <==> Breaks(p, j)
    ensures |r| <= 7 && Distinct(r)
    ensures p.slug == [] ==> SlugRequired in r && SlugInvalid in r
  {
    SchemaListsEveryRule();
    assert Distinct(SchemaRules);
    BrokenRules(p, SchemaRules)
  }

  lemma SchemaListsEveryRule()
    ensures forall j :: j in SchemaRules
  {
    forall j: Issue
      ensures j in SchemaRules
    {
      match j
      case TitleRequired => assert SchemaRules[0] == j;
      case TitleTooLong => assert SchemaRules[1] == j;
      case SlugRequired => assert SchemaRules[2] == j;
      case SlugInvalid => assert SchemaRules[3] == j;
      case BodyRequired => assert SchemaRules[4] == j;
      case ExcerptTooLong => assert SchemaRules[5] == j;
      case FormatInvalid => assert SchemaRules[6] == j;
    }
  }

  /** A post is accepted only when every field rule holds. */
  predicate ValidPost(p: Post)
    ensures ValidPost(p) <==> 1 <= |p.title| <= 128 && MatchesSlugPattern(p.slug) && p.body != []
                               && (p.excerpt.Some? ==> |p.excerpt.value| <= 255)
                               && (p.format == "markdown" || p.format == "html")
  {
    var r := Issues(p);
    assert r == [] <==> forall j :: !Breaks(p, j) by {
      if r != [] {
        assert r[0] in r;
      }
    }
    assert (forall j :: !Breaks(p, j)) <==> (!Breaks(p, TitleRequired) && !Breaks(p, TitleTooLong)
      && !Breaks(p, SlugRequired) && !Breaks(p, SlugInvalid) && !Breaks(p, BodyRequired)
      && !Breaks(p, ExcerptTooLong) && !Breaks(p, FormatInvalid));
    r == []
  }

  /** `handleTitleChange`: stores the title as typed and overwrites the slug with the one
      derived from it; the other fields stay. */
  function HandleTitleChange(p: Post, title: string): (r: Post)
    ensures r.title == title && r.slug == Slug(title)
    ensures r.(title := p.title, slug := p.slug) == p
  {
    p.(title := title, slug := Slug(title))
  }

  /** After a title change the slug passes its rules exactly when the title has a letter or
      digit; a title of 1 to 128 characters with one, in a post whose other fields pass,
      makes the whole post valid. */
  lemma TitleChangeSlugRules(p: Post, title: string)
    ensures var r := HandleTitleChange(p, title);
            (SlugRequired !in Issues(r) && SlugInvalid !in Issues(r)) <==> Alnums(LowerCase(title)) != []
    ensures 1 <= |title| <= 128 && Alnums(LowerCase(title)) != [] && p.body != []
            && (p.excerpt.Some? ==> |p.excerpt.value| <= 255) && (p.format == "markdown" || p.format == "html")
            ==> ValidPost(HandleTitleChange(p, title))
  {
    SlugShape(title);
    SlugEmptyIff(title);
  }
}
