/** Slug generation for collections and products, from the lower-cased name without diacritics. */
module Slugs {
  import opened Sets

  // ── The base of a slug ────────────────────────────────────────────────────

  predicate SlugChar(c: char) {
    'a' <= c <= 'z' || '0' <= c <= '9'
  }

  /** Every maximal run of other characters becomes one dash. */
  function Collapse(name: string): string {
    if name == "" then ""
    else
      var before, c := Collapse(name[..|name| - 1]), name[|name| - 1];
      if SlugChar(c) then before + [c]
      else if before != "" && before[|before| - 1] == '-' then before
      else before + "-"
  }

  /** One leading and one trailing dash are removed. */
  function Trim(s: string): string {
    var t := if s != "" && s[0] == '-' then s[1..] else s;
    if t != "" && t[|t| - 1] == '-' then t[..|t| - 1] else t
  }

  function Base(name: string): string {
    Trim(Collapse(name))
  }

  // ── Candidates ────────────────────────────────────────────────────────────

  function Digit(d: nat): char
    requires d < 10
  {
    "0123456789"[d]
  }

  function Decimal(n: nat): (s: string)
    ensures s != "" && forall k :: 0 <= k < |s| ==> '0' <= s[k] <= '9'
  {
    if n < 10 then [Digit(n)] else Decimal(n / 10) + [Digit(n % 10)]
  }

  /** The n-th slug tried: the first one bare, then the base with a dash and 2, 3, and so on. */
  function Candidate(first: string, base: string, n: nat): string {
    if n <= 1 then first else base + "-" + Decimal(n)
  }

  lemma {:induction false} DecimalInjective(m: nat, n: nat)
    requires Decimal(m) == Decimal(n)
    ensures m == n
  {
    var s, t := Decimal(m), Decimal(n);
    assert s[|s| - 1] == Digit(m % 10) && t[|t| - 1] == Digit(n % 10);
    DigitInjective(m % 10, n % 10);
    if m >= 10 && n >= 10 {
      assert s[..|s| - 1] == Decimal(m / 10) && t[..|t| - 1] == Decimal(n / 10);
      DecimalInjective(m / 10, n / 10);
    }
  }

  lemma DigitInjective(d: nat, e: nat)
    requires d < 10 && e < 10 && Digit(d) == Digit(e)
    ensures d == e
  {}

  /** A base and the first candidate of it: the base itself, or a fixed word when the base is empty. */
  predicate Starts(first: string, base: string) {
    first == base || (base == "" && first != "" && SlugChar(first[0]))
  }

  lemma CandidatesDistinct(first: string, base: string, m: nat, n: nat)
    requires Starts(first, base) && 1 <= m < n
    ensures Candidate(first, base, m) != Candidate(first, base, n)
  {
    var s, t := Candidate(first, base, m), Candidate(first, base, n);
    assert t[..|base|] == base && t[|base|] == '-' && t[|base| + 1..] == Decimal(n);
    if m > 1 {
      assert s[|base| + 1..] == Decimal(m);
      if Decimal(m) == Decimal(n) {
        DecimalInjective(m, n);
      }
    }
  }

  // ── Kebab shape ───────────────────────────────────────────────────────────

  /** Letters, digits and single dashes, none of them at an end. */
  predicate NoDoubleDash(s: string) {
    && (forall k :: 0 <= k < |s| ==> SlugChar(s[k]) || s[k] == '-')
    && (forall k :: 0 <= k < |s| - 1 ==> !(s[k] == '-' && s[k + 1] == '-'))
  }

  predicate Kebab(s: string) {
    s != "" && NoDoubleDash(s) && s[0] != '-' && s[|s| - 1] != '-'
  }

  lemma {:induction false} CollapseShape(name: string)
    ensures NoDoubleDash(Collapse(name))
  {
    if name != "" {
      CollapseShape(name[..|name| - 1]);
    }
  }

  /** What remains after trimming is empty or in kebab shape. */
  lemma BaseShape(name: string)
    ensures Base(name) == "" || Kebab(Base(name))
  {
    CollapseShape(name);
    var s := Collapse(name);
    var t := if s != "" && s[0] == '-' then s[1..] else s;
    assert NoDoubleDash(t);
    assert t != "" ==> t[0] != '-';
    var b := Base(name);
    assert b == t || b == t[..|t| - 1];
    assert NoDoubleDash(b);
  }

  /** The base is empty exactly when the name has no letter or digit. */
  lemma {:induction false} BaseEmptyIff(name: string)
    ensures Base(name) == "" <==> forall k :: 0 <= k < |name| ==> !SlugChar(name[k])
  {
    CollapseOnlyDashes(name);
    BaseShape(name);
    var s := Collapse(name);
    if exists k :: 0 <= k < |s| && s[k] != '-' {
      var k :| 0 <= k < |s| && s[k] != '-';
      var t := if s[0] == '-' then s[1..] else s;
      var j := if s[0] == '-' then k - 1 else k;
      assert t[j] != '-';
      if t[|t| - 1] == '-' {
        assert Base(name)[j] == t[j];
      }
    } else {
      CollapseShape(name);
      assert |s| <= 1;
    }
  }

  lemma {:induction false} CollapseOnlyDashes(name: string)
    ensures (forall k :: 0 <= k < |name| ==> !SlugChar(name[k]))
       <==> (forall k :: 0 <= k < |Collapse(name)| ==> Collapse(name)[k] == '-')
  {
    if name != "" {
      var init, c := name[..|name| - 1], name[|name| - 1];
      CollapseOnlyDashes(init);
      var before, after := Collapse(init), Collapse(name);
      assert forall k :: 0 <= k < |before| ==> after[k] == before[k];
      if SlugChar(c) {
        assert after[|after| - 1] == c;
      } else if forall k :: 0 <= k < |init| ==> !SlugChar(init[k]) {
        assert forall k :: 0 <= k < |name| ==> !SlugChar(name[k]);
      } else {
        var k :| 0 <= k < |init| && SlugChar(init[k]);
        assert name[k] == init[k];
        var j :| 0 <= j < |before| && before[j] != '-';
        assert after[j] != '-';
      }
    }
  }

  // ── What a slug keeps of the name ─────────────────────────────────────────

  /** The maximal runs of letters and digits of a text, in order. */
  function Words(s: string): (ws: seq<string>)
    ensures EndsInWord(s) ==> ws != []
  {
    if s == "" then []
    else
      var init, c := s[..|s| - 1], s[|s| - 1];
      var before := Words(init);
      if !SlugChar(c) then before
      else if EndsInWord(init) then before[..|before| - 1] + [before[|before| - 1] + [c]]
      else before + [[c]]
  }

  predicate EndsInWord(s: string) {
    s != "" && SlugChar(s[|s| - 1])
  }

  lemma {:induction false} CollapseKeepsWords(name: string)
    ensures Words(Collapse(name)) == Words(name)
    ensures EndsInWord(Collapse(name)) <==> EndsInWord(name)
  {
    if name != "" {
      var init, c := name[..|name| - 1], name[|name| - 1];
      CollapseKeepsWords(init);
      var before := Collapse(init);
      assert (before + [c])[..|before|] == before;
      assert (before + "-")[..|before|] == before;
      assert !SlugChar('-');
    }
  }

  lemma {:induction false} LeadingDash(s: string)
    ensures Words("-" + s) == Words(s)
    ensures s != "" ==> (EndsInWord("-" + s) <==> EndsInWord(s))
  {
    var t := "-" + s;
    if s == "" {
      assert t[..0] == "";
      assert !SlugChar('-');
    } else {
      var init := s[..|s| - 1];
      LeadingDash(init);
      assert t[..|t| - 1] == "-" + init;
      assert EndsInWord("-" + init) <==> EndsInWord(init);
    }
  }

  /** Words joined by single dashes. */
  function Joined(ws: seq<string>): string {
    if ws == [] then ""
    else if |ws| == 1 then ws[0]
    else Joined(ws[..|ws| - 1]) + "-" + ws[|ws| - 1]
  }

  lemma JoinedExtended(ws: seq<string>, c: char)
    requires ws != []
    ensures Joined(ws[..|ws| - 1] + [ws[|ws| - 1] + [c]]) == Joined(ws) + [c]
  {
    var us := ws[..|ws| - 1] + [ws[|ws| - 1] + [c]];
    assert us[..|us| - 1] == ws[..|ws| - 1];
  }

  lemma JoinedSnoc(ws: seq<string>, w: string)
    requires ws != []
    ensures Joined(ws + [w]) == Joined(ws) + "-" + w
  {
    assert (ws + [w])[..|ws|] == ws;
  }

  lemma WordsSnoc(s: string, c: char)
    ensures !SlugChar(c) ==> Words(s + [c]) == Words(s)
    ensures SlugChar(c) && EndsInWord(s) ==>
              Words(s + [c]) == Words(s)[..|Words(s)| - 1] + [Words(s)[|Words(s)| - 1] + [c]]
    ensures SlugChar(c) && !EndsInWord(s) ==> Words(s + [c]) == Words(s) + [[c]]
  {
    assert (s + [c])[..|s|] == s;
  }

  /** A text without leading or doubled dashes is its words joined, and perhaps a last dash. */
  lemma {:induction false} JoinedWords(s: string)
    requires NoDoubleDash(s) && (s != "" ==> s[0] != '-')
    ensures s == Joined(Words(s)) + LastDash(s)
  {
    if s != "" {
      var init, c := s[..|s| - 1], s[|s| - 1];
      assert s == init + [c];
      WordsSnoc(init, c);
      if init == "" {
        assert Joined([[c]]) == [c];
      } else {
        hide Joined, Words;
        InitShape(s);
        JoinedWords(init);
        if c == '-' {
          assert Joined(Words(s)) == init;
        } else if EndsInWord(init) {
          JoinedExtended(Words(init), c);
        } else {
          assert Words(init) != [] by { NoWords(init); }
          JoinedSnoc(Words(init), [c]);
          assert s == Joined(Words(init)) + "-" + [c];
        }
      }
    }
  }

  function LastDash(s: string): string {
    if s != "" && s[|s| - 1] == '-' then "-" else ""
  }

  lemma InitShape(s: string)
    requires NoDoubleDash(s) && |s| >= 2 && s[0] != '-'
    ensures var init := s[..|s| - 1];
            && NoDoubleDash(init) && init[0] != '-'
            && (s[|s| - 1] == '-' ==> LastDash(init) == "")
            && (s[|s| - 1] != '-' ==> SlugChar(s[|s| - 1]))
            && (!EndsInWord(init) ==> LastDash(init) == "-")
            && (EndsInWord(init) ==> LastDash(init) == "")
  {
    var init := s[..|s| - 1];
    assert init[|init| - 1] == s[|s| - 2];
  }

  lemma NoWords(s: string)
    ensures s == Joined(Words(s)) + LastDash(s) && s != "" && s[0] != '-' ==> Words(s) != []
  {}

  /** A base is exactly the words of the name, in order, joined by single dashes. */
  lemma BaseIsJoinedWords(name: string)
    ensures Base(name) == Joined(Words(name))
  {
    CollapseKeepsWords(name);
    var s := Collapse(name);
    var t := if s != "" && s[0] == '-' then s[1..] else s;
    if s != "" && s[0] == '-' {
      assert s == "-" + t;
      LeadingDash(t);
    }
    assert !SlugChar('-');
    assert Words(Base(name)) == Words(name);
    BaseShape(name);
    JoinedWords(Base(name));
  }

  /** The number a numeral stands for. */
  function ValueOf(s: string): int {
    if s == "" then 0 else 10 * ValueOf(s[..|s| - 1]) + (s[|s| - 1] as int - '0' as int)
  }

  lemma {:induction false} DecimalValue(n: nat)
    ensures ValueOf(Decimal(n)) == n
    ensures Decimal(n)[0] == '0' ==> n == 0
  {
    if n >= 10 {
      DecimalValue(n / 10);
      assert Decimal(n)[..|Decimal(n)| - 1] == Decimal(n / 10);
    } else {
      assert Decimal(n)[..0] == "";
    }
  }

  lemma Suffix(base: string, d: string)
    ensures var s := base + "-" + d;
            && s[..|base|] == base && s[|base|] == '-' && s[|base| + 1..] == d
            && forall i :: |base| < i < |s| ==> s[i] == d[i - |base| - 1]
  {}

  /** The slugs tried are the first one, and from the second on the base, a dash and the number of the try. */
  lemma CandidateNames(first: string, base: string, n: nat)
    ensures n <= 1 ==> Candidate(first, base, n) == first
    ensures n >= 2 ==>
              var s := Candidate(first, base, n);
              && |s| > |base| + 1 && s[..|base|] == base && s[|base|] == '-'
              && ValueOf(s[|base| + 1..]) == n && s[|base| + 1] != '0'
              && forall i :: |base| < i < |s| ==> '0' <= s[i] <= '9'
  {
    if n >= 2 {
      DecimalValue(n);
      var d := Decimal(n);
      hide ValueOf, Decimal;
      Suffix(base, d);
    }
  }

  lemma SuffixedShape(base: string, n: nat)
    requires base == "" || Kebab(base)
    ensures Kebab(base + "-" + Decimal(n)) <==> base != ""
  {
    var s := base + "-" + Decimal(n);
    var d := Decimal(n);
    assert s[|base|] == '-' && s[|s| - 1] == d[|d| - 1];
    forall k | 0 <= k < |s| ensures SlugChar(s[k]) || s[k] == '-' {
      if k < |base| {
        assert s[k] == base[k];
      } else if k > |base| {
        assert s[k] == d[k - |base| - 1];
      }
    }
    forall k | 0 <= k < |s| - 1 ensures !(s[k] == '-' && s[k + 1] == '-') {
      if k < |base| {
        assert s[k] == base[k];
        if k == |base| - 1 {
          assert base[k] == base[|base| - 1];
        } else {
          assert s[k + 1] == base[k + 1];
        }
      } else if k >= |base| {
        assert s[k + 1] == d[k - |base|];
      }
    }
    if base == "" {
      assert s[0] == '-';
    } else {
      assert s[0] == base[0];
    }
  }

  // ── The search ────────────────────────────────────────────────────────────

  /** The slugs tried before the n-th. */
  function Tried(first: string, base: string, n: nat): set<string> {
    if n <= 1 then {} else Tried(first, base, n - 1) + {Candidate(first, base, n - 1)}
  }

  lemma {:induction false} TriedSize(first: string, base: string, n: nat)
    requires Starts(first, base) && 1 <= n
    ensures |Tried(first, base, n)| == n - 1
    ensures forall s :: s in Tried(first, base, n) ==> exists k :: 1 <= k < n && s == Candidate(first, base, k)
  {
    if n > 1 {
      TriedSize(first, base, n - 1);
      if Candidate(first, base, n - 1) in Tried(first, base, n - 1) {
        var k :| 1 <= k < n - 1 && Candidate(first, base, n - 1) == Candidate(first, base, k);
        CandidatesDistinct(first, base, k, n - 1);
      }
    }
  }

  lemma TriedFits(first: string, base: string, n: nat, taken: set<string>)
    requires Starts(first, base) && 1 <= n && Tried(first, base, n) <= taken
    ensures n - 1 <= |taken|
  {
    TriedSize(first, base, n);
    SubsetSize(Tried(first, base, n), taken);
  }

  /** The services' loop: it stops after at most |taken| + 1 lookups, at the first free candidate. */
  method FindFree(first: string, base: string, taken: set<string>) returns (slug: string, lookups: nat)
    requires Starts(first, base)
    ensures slug !in taken && 1 <= lookups <= |taken| + 1
    ensures slug == Candidate(first, base, lookups)
    ensures forall k :: 1 <= k < lookups ==> Candidate(first, base, k) in taken
  {
    slug := first;
    var n := 1;
    while slug in taken
      invariant 1 <= n && slug == Candidate(first, base, n)
      invariant Tried(first, base, n) <= taken
      invariant forall k :: 1 <= k < n ==> Candidate(first, base, k) in taken
      decreases |taken| - n
    {
      TriedFits(first, base, n + 1, taken);
      n := n + 1;
      slug := base + "-" + Decimal(n);
    }
    TriedFits(first, base, n, taken);
    lookups := n;
  }

  /** Collections fall back to a word before numbering, so the result always has kebab shape. */
  method CollectionSlug(name: string, taken: set<string>) returns (slug: string)
    ensures slug !in taken && Kebab(slug)
    ensures var base := if Base(name) == "" then "coleccion" else Base(name);
            exists n :: 1 <= n <= |taken| + 1 && slug == Candidate(base, base, n)
                        && forall k :: 1 <= k < n ==> Candidate(base, base, k) in taken
  {
    var base := Base(name);
    if base == "" {
      base := "coleccion";
    }
    var n;
    slug, n := FindFree(base, base, taken);
    BaseShape(name);
    assert Kebab("coleccion");
    SuffixedShape(base, n);
  }

  /** Products number the empty base itself: a name without letters or digits whose fallback word is taken
      gets a slug that starts with a dash. Otherwise the shape is kebab, and in every case the slug is free. */
  method ProductSlug(name: string, taken: set<string>) returns (slug: string)
    ensures slug !in taken
    ensures Kebab(slug) <==> Base(name) != "" || "producto" !in taken
    ensures var first := if Base(name) == "" then "producto" else Base(name);
            exists n :: 1 <= n <= |taken| + 1 && slug == Candidate(first, Base(name), n)
                        && forall k :: 1 <= k < n ==> Candidate(first, Base(name), k) in taken
  {
    var base := Base(name);
    var first := if base == "" then "producto" else base;
    var n;
    slug, n := FindFree(first, base, taken);
    BaseShape(name);
    assert Kebab("producto");
    SuffixedShape(base, n);
    assert Candidate(first, base, 1) == first;
  }
}
