/** The public key `createJob` gives a job (Controllers/jobController.js):
    a slug of the title, a dash, and the creation time in base 36. */
module JobKey {
  import opened Base

  predicate IsSlugAlnum(c: char) {
    'a' <= c <= 'z' || '0' <= c <= '9'
  }

  predicate IsSlugChar(c: char) {
    IsSlugAlnum(c) || c == '-'
  }

  /** The letters and digits of `s`, in order. */
  function Alnums(s: string): string {
    if s == [] then []
    else (if IsSlugAlnum(s[0]) then [s[0]] else []) + Alnums(s[1..])
  }

  /** `s.replace(/[^a-z0-9]+/g, "-")`: every maximal run of other characters
      becomes one dash. A character outside `[a-z0-9]` yields a dash only
      when it ends its run. */
  function Dashed(s: string): string {
    if s == [] then []
    else if IsSlugAlnum(s[0]) then [s[0]] + Dashed(s[1..])
    else if |s| > 1 && !IsSlugAlnum(s[1]) then Dashed(s[1..])
    else "-" + Dashed(s[1..])
  }

  /** The replacement yields only `[a-z0-9-]`, never two dashes in a row,
      keeps a leading letter or digit in front, and keeps every letter and
      digit in order. */
  lemma {:induction false} DashedShape(s: string)
    ensures var r := Dashed(s);
            DashSeparated(r)
            && (s != [] && IsSlugAlnum(s[0]) ==> r != [] && r[0] == s[0])
            && Alnums(r) == Alnums(s)
  {
    if s != [] {
      var d := Dashed(s[1..]);
      DashedShape(s[1..]);
      var r := Dashed(s);
      if IsSlugAlnum(s[0]) {
        assert r == [s[0]] + d && r[1..] == d;
      } else if |s| > 1 && !IsSlugAlnum(s[1]) {
        assert r == d;
      } else {
        assert r == "-" + d && r[1..] == d;
        assert d != [] ==> IsSlugAlnum(d[0]);
      }
    }
  }

  lemma DashedHead(c: char, u: string)
    requires IsSlugAlnum(c)
    ensures Dashed([c] + u) == [c] + Dashed(u)
  {
    assert ([c] + u)[1..] == u;
  }

  lemma DashedCons(c: char, t: string, rest: string)
    requires IsSlugAlnum(c) && Dashed(t + rest) == t + Dashed(rest)
    ensures Dashed([c] + t + rest) == [c] + t + Dashed(rest)
  {
    DashedHead(c, t + rest);
    assert [c] + t + rest == [c] + (t + rest);
  }

  /** Letters and digits at the front pass through unchanged. */
  lemma {:induction false} DashedAfterPlain(x: string, rest: string)
    requires forall i :: 0 <= i < |x| ==> IsSlugAlnum(x[i])
    ensures Dashed(x + rest) == x + Dashed(rest)
  {
    if x == [] {
      assert x + rest == rest;
    } else {
      assert x == [x[0]] + x[1..];
      DashedAfterPlain(x[1..], rest);
      DashedCons(x[0], x[1..], rest);
    }
  }

  /** A maximal run of other characters, followed by a letter, a digit or
      the end, becomes exactly one dash. */
  lemma {:induction false} DashedRun(run: string, y: string)
    requires run != [] && forall i :: 0 <= i < |run| ==> !IsSlugAlnum(run[i])
    requires y == [] || IsSlugAlnum(y[0])
    ensures Dashed(run + y) == "-" + Dashed(y)
  {
    assert (run + y)[1..] == run[1..] + y;
    if |run| > 1 {
      DashedRun(run[1..], y);
    }
  }

  /** Between letters and digits, every run of other characters becomes
      one dash: `Dashed("a b") == "a-b"`, `Dashed("c++ dev") == "c-dev"`. */
  lemma DashedOneDashPerRun(x: string, run: string, y: string)
    requires forall i :: 0 <= i < |x| ==> IsSlugAlnum(x[i])
    requires run != [] && forall i :: 0 <= i < |run| ==> !IsSlugAlnum(run[i])
    requires y == [] || IsSlugAlnum(y[0])
    ensures Dashed(x + run + y) == x + "-" + Dashed(y)
  {
    assert x + run + y == x + (run + y);
    DashedAfterPlain(x, run + y);
    DashedRun(run, y);
  }

  /** `replace(/^-+/, "")`. */
  function DropLeadingDashes(s: string): (r: string)
    ensures |r| <= |s| && r == s[|s| - |r|..]
    ensures r == [] || r[0] != '-'
    ensures forall i :: 0 <= i < |s| - |r| ==> s[i] == '-'
  {
    if s != [] && s[0] == '-' then DropLeadingDashes(s[1..]) else s
  }

  /** `replace(/-+$/, "")`. */
  function DropTrailingDashes(s: string): (r: string)
    ensures |r| <= |s| && r == s[..|r|]
    ensures r == [] || r[|r| - 1] != '-'
    ensures forall i :: |r| <= i < |s| ==> s[i] == '-'
  {
    if s != [] && s[|s| - 1] == '-' then DropTrailingDashes(s[..|s| - 1]) else s
  }

  const SlugLength := 40

  /** `title.toLowerCase().replace(/[^a-z0-9]+/g, "-").replace(/^-+|-+$/g, "").slice(0, 40)`. */
  function Slug(title: string): string {
    var t := DropTrailingDashes(DropLeadingDashes(Dashed(ToLower(title))));
    if |t| <= SlugLength then t else t[..SlugLength]
  }

  /** Characters from `[a-z0-9-]` and never two dashes in a row. */
  predicate DashSeparated(s: string) {
    (forall i :: 0 <= i < |s| ==> IsSlugChar(s[i]))
    && (forall i :: 0 <= i < |s| - 1 ==> !(s[i] == '-' && s[i + 1] == '-'))
  }

  lemma SliceDashSeparated(s: string, a: nat, b: nat)
    requires DashSeparated(s) && a <= b <= |s|
    ensures DashSeparated(s[a..b])
  {
    var t := s[a..b];
    assert forall i :: 0 <= i < |t| ==> t[i] == s[a + i];
  }

  /** Dropping the dashes at both ends keeps the shape and leaves no
      leading dash. */
  lemma TrimDashesShape(d: string)
    requires DashSeparated(d)
    ensures var t := DropTrailingDashes(DropLeadingDashes(d));
            DashSeparated(t) && (t == [] || t[0] != '-')
  {
    var u := DropLeadingDashes(d);
    SliceDashSeparated(d, |d| - |u|, |d|);
    var t := DropTrailingDashes(u);
    SliceDashSeparated(u, 0, |t|);
  }

  /** A slug has at most 40 characters from `[a-z0-9-]`, does not start
      with a dash and never holds two dashes in a row. */
  lemma SlugShape(title: string)
    ensures var r := Slug(title);
            |r| <= SlugLength && DashSeparated(r) && (r == [] || r[0] != '-')
  {
    var d := Dashed(ToLower(title));
    DashedShape(ToLower(title));
    TrimDashesShape(d);
    var t := DropTrailingDashes(DropLeadingDashes(d));
    if SlugLength < |t| {
      SliceDashSeparated(t, 0, SlugLength);
      assert t[..SlugLength][0] == t[0];
    }
  }

  /** A short title of lower-case letters and digits is its own slug. */
  lemma {:induction false} SlugOfPlainTitle(title: string)
    requires |title| <= SlugLength && forall i :: 0 <= i < |title| ==> IsSlugAlnum(title[i])
    ensures Slug(title) == title
  {
    assert ToLower(title) == title;
    DashedOfPlain(title);
  }

  lemma {:induction false} DashedOfPlain(s: string)
    requires forall i :: 0 <= i < |s| ==> IsSlugAlnum(s[i])
    ensures Dashed(s) == s
  {
    if s != [] {
      DashedOfPlain(s[1..]);
    }
  }

  /** One base-36 digit, as `Number.prototype.toString(36)` writes it. */
  function Digit36(d: nat): (c: char)
    requires d < 36
    ensures IsSlugAlnum(c)
  {
    if d < 10 then ('0' as int + d) as char else ('a' as int + d - 10) as char
  }

  function DigitValue(c: char): nat {
    if '0' <= c <= '9' then c as int - '0' as int
    else if 'a' <= c <= 'z' then c as int - 'a' as int + 10
    else 0
  }

  /** `n.toString(36)` for the millisecond clock `Date.now()`. */
  function ToBase36(n: nat): (r: string)
    ensures r != [] && forall i :: 0 <= i < |r| ==> IsSlugAlnum(r[i])
  {
    if n < 36 then [Digit36(n)] else ToBase36(n / 36) + [Digit36(n % 36)]
  }

  /** `parseInt(s, 36)` on a string of base-36 digits. */
  function FromBase36(s: string): nat {
    if s == [] then 0 else FromBase36(s[..|s| - 1]) * 36 + DigitValue(s[|s| - 1])
  }

  lemma {:induction false} Base36RoundTrip(n: nat)
    ensures FromBase36(ToBase36(n)) == n
  {
    if n < 36 {
      assert ToBase36(n)[..0] == [];
    } else {
      var r := ToBase36(n);
      assert r[..|r| - 1] == ToBase36(n / 36);
      Base36RoundTrip(n / 36);
    }
  }

  /** `${slug}-${Date.now().toString(36)}`. */
  function MakeJobKey(title: string, now: nat): string {
    Slug(title) + "-" + ToBase36(now)
  }

  /** The text after the last dash of a key gives back its creation time. */
  lemma KeyTime(title: string, now: nat)
    ensures FromBase36(LastPiece(MakeJobKey(title, now), '-')) == now
  {
    LastPieceAfter(Slug(title), ToBase36(now), '-');
    Base36RoundTrip(now);
  }

  /** Two jobs get the same key exactly when their titles have the same
      slug and they are created in the same millisecond. */
  lemma KeyCollision(t1: string, n1: nat, t2: string, n2: nat)
    ensures MakeJobKey(t1, n1) == MakeJobKey(t2, n2) <==> Slug(t1) == Slug(t2) && n1 == n2
  {
    if MakeJobKey(t1, n1) == MakeJobKey(t2, n2) {
      KeyTime(t1, n1);
      KeyTime(t2, n2);
      var k := MakeJobKey(t1, n1);
      assert |Slug(t1)| == |Slug(t2)|;
      assert Slug(t1) == k[..|Slug(t1)|] == Slug(t2);
    }
  }
}
