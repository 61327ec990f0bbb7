/**
 Slugs of apps and tenants.  Trimming, lower-casing, NFKD and the removal of combining marks are one function `fold`,
 of which only this is assumed: it leaves strings of lower-case letters, digits and hyphens alone.
 */
module Slugs {
  import opened Sets

  predicate IsWordChar(c: char) {
    'a' <= c <= 'z' || '0' <= c <= '9'
  }

  predicate IsWord(s: string) {
    s != "" && forall i | 0 <= i < |s| :: IsWordChar(s[i])
  }

  ghost predicate KeepsSlugText(fold: string -> string) {
    forall s: string :: (forall i | 0 <= i < |s| :: IsWordChar(s[i]) || s[i] == '-') ==> fold(s) == s
  }

  // ---------------------------------------------------- the accepted pattern

  function Join(words: seq<string>): string {
    if words == [] then "" else if |words| == 1 then words[0] else words[0] + "-" + Join(words[1..])
  }

  /** ^[a-z0-9]+(?:-[a-z0-9]+)*$ : words joined by single hyphens. */
  ghost predicate MatchesPattern(s: string) {
    exists words: seq<string> :: words != [] && (forall i | 0 <= i < |words| :: IsWord(words[i])) && s == Join(words)
  }

  // The same by looking at characters.
  predicate IsSlug(s: string) {
    && s != ""
    && (forall i | 0 <= i < |s| :: IsWordChar(s[i]) || s[i] == '-')
    && s[0] != '-' && s[|s| - 1] != '-'
    && forall i | 0 <= i < |s| - 1 :: !(s[i] == '-' && s[i + 1] == '-')
  }

  lemma {:induction false} JoinedWordsAreSlug(words: seq<string>)
    requires words != [] && forall i | 0 <= i < |words| :: IsWord(words[i])
    ensures IsSlug(Join(words))
  {
    if |words| == 1 {
      assert IsWord(words[0]);
    } else {
      JoinedWordsAreSlug(words[1..]);
      assert IsWord(words[0]);
      GlueSlugs(words[0], Join(words[1..]));
    }
  }

  lemma GlueSlugs(a: string, b: string)
    requires IsSlug(a) && IsSlug(b)
    ensures IsSlug(a + "-" + b)
  {
    var s := a + "-" + b;
    assert forall i | 0 <= i < |s| :: s[i] == if i < |a| then a[i] else if i == |a| then '-' else b[i - |a| - 1];
  }

  function WordEnd(s: string): (n: nat)
    ensures n <= |s| && (forall i | 0 <= i < n :: IsWordChar(s[i])) && (n < |s| ==> !IsWordChar(s[n]))
  {
    if s == "" || !IsWordChar(s[0]) then 0 else 1 + WordEnd(s[1..])
  }

  lemma {:induction false} SlugSplits(s: string) returns (words: seq<string>)
    requires IsSlug(s)
    ensures words != [] && (forall i | 0 <= i < |words| :: IsWord(words[i])) && s == Join(words)
    decreases |s|
  {
    var n := WordEnd(s);
    if n == |s| {
      words := [s];
    } else {
      var rest := s[n + 1..];
      assert s[n] == '-';
      assert n + 1 < |s|;
      assert rest[0] == s[n + 1] && rest[|rest| - 1] == s[|s| - 1];
      var tail := SlugSplits(rest);
      words := [s[..n]] + tail;
      assert words[1..] == tail;
      assert s == s[..n] + "-" + rest;
    }
  }

  /** The pattern of the DTO accepts exactly the slugs. */
  lemma PatternIsSlug(s: string)
    ensures MatchesPattern(s) <==> IsSlug(s)
  {
    if MatchesPattern(s) {
      var words :| words != [] && (forall i | 0 <= i < |words| :: IsWord(words[i])) && s == Join(words);
      JoinedWordsAreSlug(words);
    }
    if IsSlug(s) {
      var words := SlugSplits(s);
    }
  }

  // ----------------------------------------------------------------- slugify

  function SkipNonWord(s: string): (r: string)
    ensures |r| <= |s| && (r != "" ==> IsWordChar(r[0]))
  {
    if s == "" || IsWordChar(s[0]) then s else SkipNonWord(s[1..])
  }

  // replace(/[^a-z0-9]+/g, "-")
  function Hyphenate(s: string): string
    decreases |s|
  {
    if s == "" then ""
    else if IsWordChar(s[0]) then [s[0]] + Hyphenate(s[1..])
    else "-" + Hyphenate(SkipNonWord(s[1..]))
  }

  function StripStart(s: string): string {
    if s != "" && s[0] == '-' then StripStart(s[1..]) else s
  }

  function StripEnd(s: string): string {
    if s != "" && s[|s| - 1] == '-' then StripEnd(s[..|s| - 1]) else s
  }

  function Slugify(fold: string -> string, value: string, fallback: string): string {
    var slug := StripEnd(StripStart(Hyphenate(fold(value))));
    if slug == "" then fallback else slug
  }

  // Slug text that may still begin or end with hyphens.
  predicate IsRough(s: string) {
    && (forall i | 0 <= i < |s| :: IsWordChar(s[i]) || s[i] == '-')
    && forall i | 0 <= i < |s| - 1 :: !(s[i] == '-' && s[i + 1] == '-')
  }

  lemma {:induction false} HyphenatedIsRough(s: string)
    ensures IsRough(Hyphenate(s))
    ensures s != "" && IsWordChar(s[0]) ==> Hyphenate(s) != "" && Hyphenate(s)[0] == s[0]
    decreases |s|
  {
    if s == "" {
    } else {
      if IsWordChar(s[0]) {
        HyphenatedIsRough(s[1..]);
      } else {
        HyphenatedIsRough(SkipNonWord(s[1..]));
      }
    }
  }

  lemma {:induction false} StripStartIsRough(s: string)
    requires IsRough(s)
    ensures IsRough(StripStart(s)) && (StripStart(s) != "" ==> StripStart(s)[0] != '-')
  {
    if s != "" && s[0] == '-' {
      StripStartIsRough(s[1..]);
    }
  }

  lemma {:induction false} StripEndIsSlug(s: string)
    requires IsRough(s) && (s != "" ==> s[0] != '-')
    ensures StripEnd(s) == "" || IsSlug(StripEnd(s))
  {
    if s != "" && s[|s| - 1] == '-' {
      StripEndIsSlug(s[..|s| - 1]);
    }
  }

  /** Whatever the input, the result matches the pattern. */
  lemma SlugifyMatches(fold: string -> string, value: string, fallback: string)
    requires IsSlug(fallback)
    ensures IsSlug(Slugify(fold, value, fallback)) && MatchesPattern(Slugify(fold, value, fallback))
  {
    HyphenatedIsRough(fold(value));
    StripStartIsRough(Hyphenate(fold(value)));
    StripEndIsSlug(StripStart(Hyphenate(fold(value))));
    PatternIsSlug(Slugify(fold, value, fallback));
  }

  // The letters and digits of a string, in order.
  function WordChars(s: string): string {
    if s == "" then "" else (if IsWordChar(s[0]) then [s[0]] else "") + WordChars(s[1..])
  }

  lemma {:induction false} SkipKeepsWordChars(s: string)
    ensures WordChars(SkipNonWord(s)) == WordChars(s)
  {
    if s != "" && !IsWordChar(s[0]) {
      SkipKeepsWordChars(s[1..]);
    }
  }

  lemma {:induction false} HyphenateKeepsWordChars(s: string)
    ensures WordChars(Hyphenate(s)) == WordChars(s)
    decreases |s|
  {
    if s == "" {
    } else {
      if IsWordChar(s[0]) {
        HyphenateKeepsWordChars(s[1..]);
        assert Hyphenate(s)[1..] == Hyphenate(s[1..]);
      } else {
        SkipKeepsWordChars(s[1..]);
        HyphenateKeepsWordChars(SkipNonWord(s[1..]));
        assert Hyphenate(s)[1..] == Hyphenate(SkipNonWord(s[1..]));
      }
    }
  }

  lemma {:induction false} StripKeepsWordChars(s: string)
    ensures WordChars(StripStart(s)) == WordChars(s) && WordChars(StripEnd(s)) == WordChars(s)
    decreases |s|
  {
    if s == "" {
    } else {
      StripKeepsWordChars(s[1..]);
      if s[|s| - 1] == '-' {
        StripKeepsWordChars(s[..|s| - 1]);
        WordCharsSnoc(s[..|s| - 1], '-');
        assert s == s[..|s| - 1] + ['-'];
      }
    }
  }

  lemma {:induction false} WordCharsSnoc(s: string, c: char)
    requires !IsWordChar(c)
    ensures WordChars(s + [c]) == WordChars(s)
  {
    if s != "" {
      assert (s + [c])[1..] == s[1..] + [c];
      WordCharsSnoc(s[1..], c);
    } else {
      assert s + [c] == [c];
    }
  }

  /** slugify keeps every letter and digit of the folded text, in order; the fallback is for text that has none. */
  lemma SlugifyKeepsWordChars(fold: string -> string, value: string, fallback: string)
    ensures WordChars(fold(value)) != "" ==> WordChars(Slugify(fold, value, fallback)) == WordChars(fold(value))
    ensures WordChars(fold(value)) == "" ==> Slugify(fold, value, fallback) == fallback
  {
    var rough := Hyphenate(fold(value));
    HyphenateKeepsWordChars(fold(value));
    StripKeepsWordChars(rough);
    StripKeepsWordChars(StripStart(rough));
    HyphenatedIsRough(fold(value));
    StripStartIsRough(rough);
    var slug := StripEnd(StripStart(rough));
    StripEndIsSlug(StripStart(rough));
    if slug != "" {
      assert slug[0] != '-' && IsWordChar(slug[0]);
      assert WordChars(slug) != "";
    }
  }

  // The maximal runs of letters and digits.
  function Words(s: string): seq<string>
    decreases |s|
  {
    var r := SkipNonWord(s);
    if r == "" then [] else [r[..WordEnd(r)]] + Words(r[WordEnd(r)..])
  }

  lemma {:induction false} HyphenateWord(s: string)
    ensures Hyphenate(s) == s[..WordEnd(s)] + Hyphenate(s[WordEnd(s)..])
  {
    if s == "" || !IsWordChar(s[0]) {
    } else {
      HyphenateWord(s[1..]);
      assert s[1..][WordEnd(s[1..])..] == s[WordEnd(s)..];
      assert s[..WordEnd(s)] == [s[0]] + s[1..][..WordEnd(s[1..])];
    }
  }

  lemma {:induction false} StripEndKeepsPrefix(a: string, b: string)
    requires StripEnd(b) != ""
    ensures StripEnd(a + b) == a + StripEnd(b)
  {
    if b[|b| - 1] != '-' {
    } else {
      StripEndKeepsPrefix(a, b[..|b| - 1]);
      assert (a + b)[..|a + b| - 1] == a + b[..|b| - 1];
    }
  }

  lemma {:induction false} HyphenatedWordsJoin(s: string)
    requires s != "" && IsWordChar(s[0])
    ensures StripEnd(Hyphenate(s)) == Join(Words(s)) != ""
    decreases |s|
  {
    var n := WordEnd(s);
    var word, rest := s[..n], s[n..];
    HyphenateWord(s);
    assert word[|word| - 1] != '-';
    var r := SkipNonWord(rest);
    assert Words(s) == [word] + Words(rest);
    if rest == "" {
      assert word + "" == word;
    } else {
      assert r == SkipNonWord(rest[1..]);
      assert Hyphenate(rest) == "-" + Hyphenate(r);
      if r == "" {
        assert StripEnd(word + "-") == word by { assert (word + "-")[..|word|] == word; }
      } else {
        HyphenatedWordsJoin(r);
        assert Words(rest) == Words(r) by { assert SkipNonWord(r) == r; }
        StripEndKeepsPrefix(word + "-", Hyphenate(r));
        assert word + ("-" + Hyphenate(r)) == (word + "-") + Hyphenate(r);
        assert Words(s)[1..] == Words(r) != [];
      }
    }
  }

  /** slugify joins the runs of letters and digits of the folded text with single hyphens. */
  lemma SlugifyJoinsWords(fold: string -> string, value: string, fallback: string)
    ensures Slugify(fold, value, fallback) == if Words(fold(value)) == [] then fallback else Join(Words(fold(value)))
  {
    var s := fold(value);
    var r := SkipNonWord(s);
    if r == "" {
      assert Hyphenate(s) == "" || Hyphenate(s) == "-";
    } else {
      HyphenatedWordsJoin(r);
      HyphenatedIsRough(r);
      assert Words(s) == Words(r) by { assert SkipNonWord(r) == r; }
      if s != r {
        assert Hyphenate(s) == "-" + Hyphenate(r);
        assert Hyphenate(s)[1..] == Hyphenate(r);
      }
      assert StripStart(Hyphenate(s)) == Hyphenate(r);
    }
  }

  /** Both fallbacks are slugs. */
  lemma FallbacksAreSlugs()
    ensures IsSlug("app") && IsSlug("tenant")
  {
  }

  lemma {:induction false} HyphenateKeeps(s: string)
    requires IsRough(s) && (s != "" ==> s[|s| - 1] != '-')
    ensures Hyphenate(s) == s
    decreases |s|
  {
    if s == "" {
    } else {
      if !IsWordChar(s[0]) {
        assert |s| > 1;
        assert SkipNonWord(s[1..]) == s[1..];
      }
      HyphenateKeeps(s[1..]);
      assert s == [s[0]] + s[1..];
    }
  }

  /** slugify leaves a string as it is exactly if the DTO would accept it. */
  lemma FixedPointsArePattern(fold: string -> string, s: string, fallback: string)
    requires KeepsSlugText(fold) && IsSlug(fallback)
    ensures Slugify(fold, s, fallback) == s <==> MatchesPattern(s)
  {
    PatternIsSlug(s);
    SlugifyMatches(fold, s, fallback);
    if IsSlug(s) {
      HyphenateKeeps(s);
    }
  }

  // ----------------------------------------------------------- unique suffix

  function Digit(d: nat): char
    requires d < 10
  {
    "0123456789"[d]
  }

  function Decimal(n: nat): (s: string)
    ensures IsWord(s)
  {
    if n < 10 then [Digit(n)] else Decimal(n / 10) + [Digit(n % 10)]
  }

  // Reads decimal digits by their character codes.
  function Value(s: string): int {
    if s == "" then 0 else 10 * Value(s[..|s| - 1]) + (s[|s| - 1] as int - 48)
  }

  /** The printed number reads back as the number, in digits and without a leading zero. */
  lemma {:induction false} DecimalReadsBack(n: nat)
    ensures Value(Decimal(n)) == n
    ensures forall i | 0 <= i < |Decimal(n)| :: 48 <= Decimal(n)[i] as int <= 57
    ensures n > 0 ==> Decimal(n)[0] != '0'
  {
    if n < 10 {
      assert Decimal(n)[..0] == "" && Value("") == 0;
    } else {
      DecimalReadsBack(n / 10);
      var s := Decimal(n);
      assert s[..|s| - 1] == Decimal(n / 10);
    }
  }

  lemma DecimalIsInjective(m: nat, n: nat)
    requires Decimal(m) == Decimal(n)
    ensures m == n
  {
    DecimalReadsBack(m);
    DecimalReadsBack(n);
  }

  // The k-th slug tried: the base, base-2, base-3, ...
  function Probe(base: string, k: nat): string {
    if k == 0 then base else base + "-" + Decimal(k + 1)
  }

  lemma ProbesAreDistinct(base: string, j: nat, k: nat)
    requires j != k
    ensures Probe(base, j) != Probe(base, k)
  {
    if j != 0 && k != 0 && Probe(base, j) == Probe(base, k) {
      assert Probe(base, j)[|base| + 1..] == Decimal(j + 1);
      assert Probe(base, k)[|base| + 1..] == Decimal(k + 1);
      DecimalIsInjective(j + 1, k + 1);
    }
  }

  ghost function Tried(base: string, k: nat): set<string> {
    set j | 0 <= j < k :: Probe(base, j)
  }

  lemma {:induction false} TriedAreMany(base: string, k: nat)
    ensures |Tried(base, k)| == k
  {
    if k == 0 {
    } else {
      TriedAreMany(base, k - 1);
      assert Tried(base, k) == Tried(base, k - 1) + {Probe(base, k - 1)};
      forall j | 0 <= j < k - 1 ensures Probe(base, j) != Probe(base, k - 1) {
        ProbesAreDistinct(base, j, k - 1);
      }
    }
  }

  lemma ProbesMatch(base: string, k: nat)
    requires IsSlug(base)
    ensures IsSlug(Probe(base, k))
  {
    if k > 0 {
      GlueSlugs(base, Decimal(k + 1));
    }
  }

  // base-suffix, with base-2 up to the one before it taken.
  ghost predicate IsFirstFree(slug: string, base: string, suffix: nat, existing: set<string>) {
    && suffix >= 2 && slug == base + "-" + Decimal(suffix)
    && forall j: nat | 2 <= j < suffix :: base + "-" + Decimal(j) in existing
  }

  lemma ProbedIsFirstFree(slug: string, base: string, k: nat, existing: set<string>)
    requires slug == Probe(base, k) && slug !in existing && forall j: nat | j < k :: Probe(base, j) in existing
    ensures base !in existing ==> slug == base
    ensures base in existing ==> IsFirstFree(slug, base, k + 1, existing)
  {
    assert k > 0 ==> Probe(base, 0) == base;
    forall j: nat | 2 <= j < k + 1 ensures base + "-" + Decimal(j) in existing {
      assert Probe(base, j - 1) in existing;
    }
  }

  /** The first free slug of the sequence, found within one more probe than there are existing slugs. */
  method CreateUniqueSlug(base: string, existing: set<string>) returns (slug: string, ghost probes: nat)
    requires IsSlug(base)
    ensures slug !in existing && IsSlug(slug)
    ensures exists k: nat ::
      k <= |existing| && slug == Probe(base, k) && forall j: nat | j < k :: Probe(base, j) in existing
    ensures base !in existing ==> slug == base
    ensures base in existing ==> exists suffix: nat :: IsFirstFree(slug, base, suffix, existing)
    ensures 1 <= probes <= |existing| + 1
  {
    slug := base;
    var suffix := 2;
    while slug in existing
      invariant suffix >= 2
      invariant slug == Probe(base, suffix - 2)
      invariant forall j: nat | j < suffix - 2 :: Probe(base, j) in existing
      decreases |existing| + 2 - suffix
    {
      TriedAreMany(base, suffix - 1);
      SubsetIsSmaller(Tried(base, suffix - 1), existing);
      slug := base + "-" + Decimal(suffix);
      suffix := suffix + 1;
    }
    TriedAreMany(base, suffix - 2);
    SubsetIsSmaller(Tried(base, suffix - 2), existing);
    ProbesMatch(base, suffix - 2);
    ProbedIsFirstFree(slug, base, suffix - 2, existing);
    probes := suffix - 1;
  }
}
