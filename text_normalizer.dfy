/**
 * The text normaliser of `Big5ModelLoader.preprocess_input`: a fixed chain of
 * rewrites, each a function over strings, composed by `Normalize`.
 *
 * Character classes follow Python's `re` and `str` on the ASCII range exactly;
 * outside ASCII they are the abstractions documented on each predicate.
 */
module TextNormalizer {

  // ---------------------------------------------------------------------------
  // Character classes
  // ---------------------------------------------------------------------------

  predicate IsAscii(c: char) {
    c as int < 128
  }

  /** Python's `\s` on `str` patterns, which is the set `str.isspace` accepts. */
  predicate IsSpace(c: char) {
    var n := c as int;
    (9 <= n <= 13) || (28 <= n <= 32) || n == 0x85 || n == 0xA0 || n == 0x1680
    || (0x2000 <= n <= 0x200A) || n == 0x2028 || n == 0x2029 || n == 0x202F
    || n == 0x205F || n == 0x3000
  }

  predicate IsNonSpace(c: char) {
    !IsSpace(c)
  }

  predicate IsUpper(c: char) {
    'A' <= c <= 'Z'
  }

  predicate IsLowerLetter(c: char) {
    'a' <= c <= 'z'
  }

  /** `\d`, on ASCII. A non-ASCII decimal digit that `\d` would also delete is
      dropped by the very next step (`KeepAscii`), so the final text is the same. */
  predicate IsDigit(c: char) {
    '0' <= c <= '9'
  }

  /** `\w`: ASCII letters, digits and `_`; outside ASCII, the characters
      Python's `str.isalnum` accepts, which come from the Unicode database and
      are given by `isAlnum`. No whitespace character is alphanumeric. */
  predicate IsWordChar(c: char, isAlnum: char -> bool) {
    if IsAscii(c) then IsUpper(c) || IsLowerLetter(c) || IsDigit(c) || c == '_'
    else !IsSpace(c) && isAlnum(c)
  }

  /** Membership in Python's `string.punctuation`: the 32 printable ASCII
      characters that are neither letters, digits nor space. */
  predicate IsPunctuation(c: char) {
    var n := c as int;
    (33 <= n <= 47) || (58 <= n <= 64) || (91 <= n <= 96) || (123 <= n <= 126)
  }

  // ---------------------------------------------------------------------------
  // Step 1: str.lower()
  // ---------------------------------------------------------------------------

  function LowerChar(c: char): (d: char)
    ensures !IsUpper(d)
    ensures IsUpper(c) ==> d as int == c as int + 32
    ensures !IsUpper(c) ==> d == c
  {
    if IsUpper(c) then (c as int + 32) as char else c
  }

  /** ASCII lower-casing; non-ASCII characters are kept as they are. */
  function Lower(s: string): (r: string)
    ensures |r| == |s|
    ensures forall i :: 0 <= i < |s| ==> r[i] == LowerChar(s[i])
  {
    if s == [] then [] else [LowerChar(s[0])] + Lower(s[1..])
  }

  // ---------------------------------------------------------------------------
  // Matching helpers for the regular-expression deletions
  // ---------------------------------------------------------------------------

  /** Length of the longest prefix of `s` made of characters satisfying `cls`
      (a greedy `cls*`). */
  function Run(s: string, cls: char -> bool): (n: nat)
    ensures n <= |s|
    ensures forall i :: 0 <= i < n ==> cls(s[i])
    ensures n < |s| ==> !cls(s[n])
  {
    if s == [] || !cls(s[0]) then 0 else 1 + Run(s[1..], cls)
  }

  /** Length of the match of `prefix cls+` at the start of `s`, or 0 when the
      pattern does not match there. */
  function PrefixedRun(s: string, prefix: string, cls: char -> bool): (n: nat)
    requires prefix != []
    ensures n == 0 || (|prefix| < n <= |s| && s[..|prefix|] == prefix)
    ensures n > 0 <==> (|prefix| < |s| && s[..|prefix|] == prefix && cls(s[|prefix|]))
    ensures forall i :: |prefix| <= i < n ==> cls(s[i])
    ensures 0 < n < |s| ==> !cls(s[n])
  {
    if |prefix| < |s| && s[..|prefix|] == prefix then
      var k := Run(s[|prefix|..], cls);
      if k > 0 then |prefix| + k else 0
    else 0
  }

  // ---------------------------------------------------------------------------
  // Step 2: re.sub(r"http\S+|www\S+|https\S+", "", text)
  // ---------------------------------------------------------------------------

  /** Length of the match of `http\S+|www\S+|https\S+` at the start of `s`
      (0 for none), the alternatives tried in the order the pattern lists them. */
  function UrlPatternMatch(s: string): nat {
    var a := PrefixedRun(s, "http", IsNonSpace);
    if a > 0 then a
    else
      var b := PrefixedRun(s, "www", IsNonSpace);
      if b > 0 then b else PrefixedRun(s, "https", IsNonSpace)
  }

  /** A URL match starts here: "http" or "www" followed by a character that
      is not whitespace (an "https" match also starts with "http"). */
  predicate StartsUrl(s: string) {
    || (|s| > 4 && s[0] == 'h' && s[1] == 't' && s[2] == 't' && s[3] == 'p' && !IsSpace(s[4]))
    || (|s| > 3 && s[0] == 'w' && s[1] == 'w' && s[2] == 'w' && !IsSpace(s[3]))
  }

  /** Length of the URL match at the start of `s` (0 for none): every
      alternative ends in `\S+` after a prefix of non-whitespace letters, so a
      match is the whole non-whitespace run at the front. */
  function UrlMatch(s: string): (n: nat)
    ensures n <= |s|
    ensures n > 0 <==> StartsUrl(s)
    ensures forall i :: 0 <= i < n ==> !IsSpace(s[i])
    ensures 0 < n < |s| ==> IsSpace(s[n])
  {
    if StartsUrl(s) then Run(s, IsNonSpace) else 0
  }

  /** A run that begins with `j` class characters is those `j` characters
      followed by the run after them. */
  lemma {:induction false} RunSkip(s: string, cls: char -> bool, j: nat)
    requires j <= |s| && forall i :: 0 <= i < j ==> cls(s[i])
    ensures Run(s, cls) == j + Run(s[j..], cls)
    decreases j
  {
    if j > 0 {
      assert s[1..][j - 1..] == s[j..];
      RunSkip(s[1..], cls, j - 1);
    }
  }

  /** Whether `s` starts with the four letters of "http". */
  lemma HttpPrefix(s: string)
    requires |s| >= 4
    ensures s[..4] == "http" <==> s[0] == 'h' && s[1] == 't' && s[2] == 't' && s[3] == 'p'
  {
    if s[0] == 'h' && s[1] == 't' && s[2] == 't' && s[3] == 'p' {
      assert s[..4] == "http";
    }
  }

  /** Whether `s` starts with the three letters of "www". */
  lemma WwwPrefix(s: string)
    requires |s| >= 3
    ensures s[..3] == "www" <==> s[0] == 'w' && s[1] == 'w' && s[2] == 'w'
  {
    if s[0] == 'w' && s[1] == 'w' && s[2] == 'w' {
      assert s[..3] == "www";
    }
  }

  /** The "https" alternative matches only where "http" already does. */
  lemma HttpsAfterHttp(s: string)
    requires PrefixedRun(s, "https", IsNonSpace) > 0
    ensures |s| > 4 && s[..4] == "http" && !IsSpace(s[4])
  {
    assert s[..4] == s[..5][..4];
    assert s[4] == s[..5][4];
  }

  /** `UrlMatch` is the length the pattern, as written, matches. */
  lemma UrlMatchIsPattern(s: string)
    ensures UrlMatch(s) == UrlPatternMatch(s)
  {
    var a := PrefixedRun(s, "http", IsNonSpace);
    var b := PrefixedRun(s, "www", IsNonSpace);
    var c := PrefixedRun(s, "https", IsNonSpace);
    if |s| >= 4 { HttpPrefix(s); }
    if |s| >= 3 { WwwPrefix(s); }
    if c > 0 { HttpsAfterHttp(s); }
    if a > 0 {
      RunSkip(s, IsNonSpace, 4);
    } else if b > 0 {
      RunSkip(s, IsNonSpace, 3);
    }
  }

  /** Deletes, scanning left to right, every non-overlapping URL match. */
  function StripUrls(s: string): (r: string)
    ensures |r| <= |s|
    ensures forall i :: 0 <= i < |r| ==> r[i] in s
    decreases |s|
  {
    if s == [] then []
    else
      var n := UrlMatch(s);
      if n > 0 then StripUrls(s[n..]) else [s[0]] + StripUrls(s[1..])
  }

  /** Cutting off a front part that holds no character satisfying `p` keeps
      every such character, as often as it occurs. */
  lemma DropPrefixKeeps(s: string, n: nat, p: char -> bool)
    requires n <= |s| && forall i :: 0 <= i < n ==> !p(s[i])
    ensures forall c :: p(c) ==> multiset(s[n..])[c] == multiset(s)[c]
  {
    assert s == s[..n] + s[n..];
    assert forall c :: p(c) ==> c !in s[..n];
  }

  /** A URL match never contains whitespace, so every whitespace character
      of the text is kept, as often as it occurs. */
  lemma {:induction false} StripUrlsKeepsSpaces(s: string)
    ensures forall c :: IsSpace(c) ==> multiset(StripUrls(s))[c] == multiset(s)[c]
    decreases |s|
  {
    if s != [] {
      var n := UrlMatch(s);
      if n > 0 {
        StripUrlsKeepsSpaces(s[n..]);
        DropPrefixKeeps(s, n, IsSpace);
      } else {
        StripUrlsKeepsSpaces(s[1..]);
        assert s == [s[0]] + s[1..];
      }
    }
  }

  /** The result starts with whitespace when the text does. */
  lemma StripUrlsLeadingSpace(s: string)
    requires s != [] && IsSpace(s[0])
    ensures StripUrls(s) != [] && StripUrls(s)[0] == s[0]
  {
    assert UrlMatch(s) == 0;
  }

  /** The first `j` characters of `t` are not whitespace. */
  predicate NonSpacePrefix(t: string, j: nat) {
    j <= |t| && forall i :: 0 <= i < j ==> !IsSpace(t[i])
  }

  /** A run of non-whitespace characters at the front of the result was
      already at the front of the text: stripping resumes only after a match,
      which ends at whitespace. */
  lemma {:induction false} NonSpacePrefixKept(u: string, j: nat)
    ensures NonSpacePrefix(StripUrls(u), j) ==> j <= |u| && StripUrls(u)[..j] == u[..j]
    decreases |u|
  {
    if u != [] && j > 0 {
      var n := UrlMatch(u);
      if n > 0 {
        if n < |u| {
          StripUrlsLeadingSpace(u[n..]);
        }
      } else {
        NonSpacePrefixKept(u[1..], j - 1);
        NonSpacePrefixStep(u, j);
      }
    }
  }

  /** The step of `NonSpacePrefixKept` where the first character is kept. */
  lemma NonSpacePrefixStep(u: string, j: nat)
    requires u != [] && j > 0 && UrlMatch(u) == 0
    requires NonSpacePrefix(StripUrls(u[1..]), j - 1) ==>
      j - 1 <= |u[1..]| && StripUrls(u[1..])[..j - 1] == u[1..][..j - 1]
    ensures NonSpacePrefix(StripUrls(u), j) ==> j <= |u| && StripUrls(u)[..j] == u[..j]
  {
    var r := StripUrls(u);
    var t := StripUrls(u[1..]);
    assert r == [u[0]] + t;
    if NonSpacePrefix(r, j) {
      assert forall i :: 0 <= i < j - 1 ==> t[i] == r[i + 1];
      assert NonSpacePrefix(t, j - 1);
      assert r[..j] == [u[0]] + t[..j - 1];
      assert u[..j] == [u[0]] + u[1..][..j - 1];
    }
  }

  /** Whether a URL match starts at a character depends only on the
      non-whitespace run the character begins. */
  lemma StartsUrlFromPrefix(r: string, s: string)
    requires r != [] && s != [] && r[0] == s[0]
    requires NonSpacePrefix(r[1..], 4) ==> 5 <= |s| && r[..5] == s[..5]
    requires NonSpacePrefix(r[1..], 3) ==> 4 <= |s| && r[..4] == s[..4]
    ensures StartsUrl(r) ==> StartsUrl(s)
  {
    if |r| > 4 && r[..4] == "http" && !IsSpace(r[4]) {
      forall i | 0 <= i < 4 ensures !IsSpace(r[1..][i]) {
        assert r[1..][i] == r[i + 1];
        if i < 3 { assert r[i + 1] == r[..4][i + 1]; }
      }
      assert s[..4] == r[..5][..4];
    }
    if |r| > 3 && r[..3] == "www" && !IsSpace(r[3]) {
      forall i | 0 <= i < 3 ensures !IsSpace(r[1..][i]) {
        assert r[1..][i] == r[i + 1];
        if i < 2 { assert r[i + 1] == r[..3][i + 1]; }
      }
      assert s[..3] == r[..4][..3];
    }
  }

  /** No URL match starts anywhere in `s`. */
  predicate NoUrl(s: string) {
    forall k :: 0 <= k < |s| ==> !StartsUrl(s[k..])
  }

  /** Keeping the first character of a text in which no URL starts cannot
      create one at the front. */
  lemma KeptFirstNoUrl(s: string)
    requires s != [] && !StartsUrl(s)
    ensures !StartsUrl([s[0]] + StripUrls(s[1..]))
  {
    var r := [s[0]] + StripUrls(s[1..]);
    NonSpacePrefixKept(s[1..], 4);
    NonSpacePrefixKept(s[1..], 3);
    assert r[1..] == StripUrls(s[1..]);
    assert NonSpacePrefix(r[1..], 4) ==> r[..5] == [s[0]] + StripUrls(s[1..])[..4];
    assert NonSpacePrefix(r[1..], 4) ==> s[..5] == [s[0]] + s[1..][..4];
    assert NonSpacePrefix(r[1..], 3) ==> r[..4] == [s[0]] + StripUrls(s[1..])[..3];
    assert NonSpacePrefix(r[1..], 3) ==> s[..4] == [s[0]] + s[1..][..3];
    StartsUrlFromPrefix(r, s);
  }

  /** After URL stripping no URL match starts anywhere in the text. */
  lemma {:induction false} StripUrlsLeavesNoUrl(s: string)
    ensures NoUrl(StripUrls(s))
    decreases |s|
  {
    if s != [] {
      var n := UrlMatch(s);
      if n > 0 {
        StripUrlsLeavesNoUrl(s[n..]);
        assert StripUrls(s) == StripUrls(s[n..]);
      } else {
        var t := StripUrls(s[1..]);
        var r := StripUrls(s);
        StripUrlsLeavesNoUrl(s[1..]);
        assert r == [s[0]] + t;
        forall k | 0 <= k < |r| ensures !StartsUrl(r[k..]) {
          if k == 0 {
            KeptFirstNoUrl(s);
            assert r[k..] == r;
          } else {
            assert r[k..] == t[k - 1..];
          }
        }
      }
    }
  }

  /** A text in which no URL match starts is left unchanged. */
  lemma {:induction false} StripUrlsWithoutMatch(s: string)
    requires NoUrl(s)
    ensures StripUrls(s) == s
    decreases |s|
  {
    if s != [] {
      assert !StartsUrl(s[0..]);
      assert s[0..] == s;
      var t := s[1..];
      forall k | 0 <= k < |t| ensures !StartsUrl(t[k..]) {
        assert t[k..] == s[k + 1..];
      }
      assert NoUrl(t);
      StripUrlsWithoutMatch(t);
    }
  }

  /** Stripping URLs a second time changes nothing. */
  lemma StripUrlsIdempotent(s: string)
    ensures StripUrls(StripUrls(s)) == StripUrls(s)
  {
    StripUrlsLeavesNoUrl(s);
    StripUrlsWithoutMatch(StripUrls(s));
  }

  /** A run ends, at the latest, where a character outside its class follows. */
  lemma {:induction false} RunBeforeStop(u: string, w: string, cls: char -> bool)
    requires w != [] && !cls(w[0])
    ensures Run(u + w, cls) == Run(u, cls)
    decreases |u|
  {
    if u != [] && cls(u[0]) {
      assert (u + w)[1..] == u[1..] + w;
      RunBeforeStop(u[1..], w, cls);
    }
  }

  /** A URL match cannot reach past whitespace, so it is the same whatever
      follows a whitespace character. */
  lemma UrlMatchBeforeSpace(u: string, c: char, v: string)
    requires u != [] && IsSpace(c)
    ensures UrlMatch(u + [c] + v) == UrlMatch(u)
  {
    var s := u + [c] + v;
    assert s == u + ([c] + v);
    assert forall i :: 0 <= i < |u| ==> s[i] == u[i];
    assert s[|u|] == c;
    assert StartsUrl(s) == StartsUrl(u);
    RunBeforeStop(u, [c] + v, IsNonSpace);
  }

  /** Deleting URLs works on each side of a whitespace character separately:
      the whitespace is kept in place, and so is the text around it. */
  lemma {:induction false} StripUrlsSplit(u: string, c: char, v: string)
    requires IsSpace(c)
    ensures StripUrls(u + [c] + v) == StripUrls(u) + [c] + StripUrls(v)
    decreases |u|
  {
    if u == [] {
      assert u + [c] + v == [c] + v;
      StripUrlsKeepHead([c] + v);
      assert ([c] + v)[1..] == v;
    } else {
      UrlMatchBeforeSpace(u, c, v);
      var n := UrlMatch(u);
      if n > 0 {
        SplitDrop(u, c, v, n);
        StripUrlsDropMatch(u + [c] + v);
        StripUrlsDropMatch(u);
        StripUrlsSplit(u[n..], c, v);
      } else {
        SplitHead(u, c, v);
        StripUrlsKeepHead(u + [c] + v);
        StripUrlsKeepHead(u);
        StripUrlsSplit(u[1..], c, v);
        ConsAssoc(u[0], StripUrls(u[1..]), c, StripUrls(v));
      }
    }
  }

  /** URL deletion keeps a first character at which no match starts. */
  lemma StripUrlsKeepHead(s: string)
    requires s != [] && UrlMatch(s) == 0
    ensures StripUrls(s) == [s[0]] + StripUrls(s[1..])
  {
  }

  /** URL deletion drops a match at the front and goes on after it. */
  lemma StripUrlsDropMatch(s: string)
    requires UrlMatch(s) > 0
    ensures StripUrls(s) == StripUrls(s[UrlMatch(s)..])
  {
  }

  /** Characters before the first place a URL match starts are kept, in
      place, at the front of the result. */
  lemma {:induction false} StripUrlsKeepsPrefix(s: string, k: nat)
    requires k <= |s| && forall i :: 0 <= i < k ==> !StartsUrl(s[i..])
    ensures k <= |StripUrls(s)| && StripUrls(s)[..k] == s[..k]
    decreases k
  {
    if k > 0 {
      assert s[0..] == s;
      forall i | 0 <= i < k - 1 ensures !StartsUrl(s[1..][i..]) {
        assert s[1..][i..] == s[i + 1..];
      }
      StripUrlsKeepsPrefix(s[1..], k - 1);
      assert StripUrls(s) == [s[0]] + StripUrls(s[1..]);
      assert s[..k] == [s[0]] + s[1..][..k - 1];
    }
  }

  // ---------------------------------------------------------------------------
  // Steps 3 and 4: re.sub(r"@\w+", "", text) and re.sub(r"#\w+", "", text)
  // ---------------------------------------------------------------------------

  /** Length of the longest prefix of word characters (a greedy `\w*`). */
  function WordRun(s: string, isAlnum: char -> bool): (n: nat)
    ensures n <= |s|
    ensures forall i :: 0 <= i < n ==> IsWordChar(s[i], isAlnum)
    ensures n < |s| ==> !IsWordChar(s[n], isAlnum)
  {
    if s == [] || !IsWordChar(s[0], isAlnum) then 0 else 1 + WordRun(s[1..], isAlnum)
  }

  /** A `marker \w+` match starts here. */
  predicate StartsMarked(s: string, marker: char, isAlnum: char -> bool) {
    |s| > 1 && s[0] == marker && IsWordChar(s[1], isAlnum)
  }

  /** Length of the `marker \w+` match at the start of `s` (0 for none): the
      marker and the longest run of word characters after it. */
  function MarkedMatch(s: string, marker: char, isAlnum: char -> bool): (n: nat)
    ensures n <= |s|
    ensures n > 0 <==> StartsMarked(s, marker, isAlnum)
    ensures n > 0 ==> s[0] == marker
    ensures forall i :: 1 <= i < n ==> IsWordChar(s[i], isAlnum)
    ensures 0 < n < |s| ==> !IsWordChar(s[n], isAlnum)
  {
    if StartsMarked(s, marker, isAlnum) then 1 + WordRun(s[1..], isAlnum) else 0
  }

  /** Deletes every `marker \w+` match (a mention for '@', a hashtag for '#'). */
  function StripMarked(s: string, marker: char, isAlnum: char -> bool): (r: string)
    ensures |r| <= |s|
    ensures forall i :: 0 <= i < |r| ==> r[i] in s
    decreases |s|
  {
    if s == [] then []
    else
      var n := MarkedMatch(s, marker, isAlnum);
      if n > 0 then StripMarked(s[n..], marker, isAlnum) else [s[0]] + StripMarked(s[1..], marker, isAlnum)
  }

  /** A match is the marker and word characters, so every other character is
      kept, as often as it occurs. */
  lemma {:induction false} StripMarkedKeepsOthers(s: string, marker: char, isAlnum: char -> bool)
    ensures forall c :: c != marker && !IsWordChar(c, isAlnum) ==>
      multiset(StripMarked(s, marker, isAlnum))[c] == multiset(s)[c]
    decreases |s|
  {
    if s != [] {
      var n := MarkedMatch(s, marker, isAlnum);
      if n > 0 {
        StripMarkedKeepsOthers(s[n..], marker, isAlnum);
        DropPrefixKeeps(s, n, c => c != marker && !IsWordChar(c, isAlnum));
      } else {
        StripMarkedKeepsOthers(s[1..], marker, isAlnum);
        assert s == [s[0]] + s[1..];
      }
    }
  }

  /** A text that does not start with a word character gives a result that
      does not start with one either. */
  lemma {:induction false} NonWordStartKept(s: string, marker: char, isAlnum: char -> bool)
    requires s == [] || !IsWordChar(s[0], isAlnum)
    ensures var r := StripMarked(s, marker, isAlnum); r == [] || !IsWordChar(r[0], isAlnum)
    decreases |s|
  {
    if s != [] {
      var n := MarkedMatch(s, marker, isAlnum);
      if n > 0 {
        NonWordStartKept(s[n..], marker, isAlnum);
      }
    }
  }

  /** A result that starts with a word character starts with the text's own
      first character: stripping resumes only after a match, at a character
      that is not a word character. */
  lemma FirstWordCharKept(s: string, marker: char, isAlnum: char -> bool)
    ensures var r := StripMarked(s, marker, isAlnum);
      r != [] && IsWordChar(r[0], isAlnum) ==> s != [] && s[0] == r[0]
  {
    if s != [] {
      var n := MarkedMatch(s, marker, isAlnum);
      if n > 0 {
        NonWordStartKept(s[n..], marker, isAlnum);
      }
    }
  }

  /** No `marker \w+` match starts anywhere in `s`. */
  predicate NoMarkedMatch(s: string, marker: char, isAlnum: char -> bool) {
    forall k :: 0 <= k < |s| ==> !StartsMarked(s[k..], marker, isAlnum)
  }

  /** After stripping, no `marker \w+` match starts anywhere in the text. */
  lemma {:induction false} StripMarkedLeavesNoMatch(s: string, marker: char, isAlnum: char -> bool)
    ensures NoMarkedMatch(StripMarked(s, marker, isAlnum), marker, isAlnum)
    decreases |s|
  {
    if s != [] {
      var n := MarkedMatch(s, marker, isAlnum);
      if n > 0 {
        StripMarkedLeavesNoMatch(s[n..], marker, isAlnum);
        assert StripMarked(s, marker, isAlnum) == StripMarked(s[n..], marker, isAlnum);
      } else {
        var t := StripMarked(s[1..], marker, isAlnum);
        var r := StripMarked(s, marker, isAlnum);
        StripMarkedLeavesNoMatch(s[1..], marker, isAlnum);
        assert r == [s[0]] + t;
        forall k | 0 <= k < |r| ensures !StartsMarked(r[k..], marker, isAlnum) {
          if k == 0 {
            FirstWordCharKept(s[1..], marker, isAlnum);
            assert r[k..] == r;
          } else {
            assert r[k..] == t[k - 1..];
          }
        }
      }
    }
  }

  /** A text in which no match starts is left unchanged. */
  lemma {:induction false} StripMarkedWithoutMatch(s: string, marker: char, isAlnum: char -> bool)
    requires NoMarkedMatch(s, marker, isAlnum)
    ensures StripMarked(s, marker, isAlnum) == s
    decreases |s|
  {
    if s != [] {
      assert !StartsMarked(s[0..], marker, isAlnum);
      assert s[0..] == s;
      var t := s[1..];
      forall k | 0 <= k < |t| ensures !StartsMarked(t[k..], marker, isAlnum) {
        assert t[k..] == s[k + 1..];
      }
      assert NoMarkedMatch(t, marker, isAlnum);
      StripMarkedWithoutMatch(t, marker, isAlnum);
    }
  }

  /** Stripping mentions (or hashtags) a second time changes nothing. */
  lemma StripMarkedIdempotent(s: string, marker: char, isAlnum: char -> bool)
    ensures StripMarked(StripMarked(s, marker, isAlnum), marker, isAlnum) == StripMarked(s, marker, isAlnum)
  {
    StripMarkedLeavesNoMatch(s, marker, isAlnum);
    StripMarkedWithoutMatch(StripMarked(s, marker, isAlnum), marker, isAlnum);
  }

  /** A run of word characters ends, at the latest, where a character that is
      not a word character follows. */
  lemma {:induction false} WordRunBeforeStop(u: string, w: string, isAlnum: char -> bool)
    requires w != [] && !IsWordChar(w[0], isAlnum)
    ensures WordRun(u + w, isAlnum) == WordRun(u, isAlnum)
    decreases |u|
  {
    if u != [] && IsWordChar(u[0], isAlnum) {
      assert (u + w)[1..] == u[1..] + w;
      WordRunBeforeStop(u[1..], w, isAlnum);
    }
  }

  /** A `marker \w+` match cannot reach past a character that is neither the
      marker nor a word character. */
  lemma MarkedMatchBeforeStop(u: string, c: char, v: string, marker: char, isAlnum: char -> bool)
    requires u != [] && c != marker && !IsWordChar(c, isAlnum)
    ensures MarkedMatch(u + [c] + v, marker, isAlnum) == MarkedMatch(u, marker, isAlnum)
  {
    var s := u + [c] + v;
    assert s[0] == u[0];
    if |u| == 1 {
      assert s[1] == c;
    } else {
      assert s[1] == u[1];
      assert s[1..] == u[1..] + ([c] + v);
      WordRunBeforeStop(u[1..], [c] + v, isAlnum);
    }
  }

  /** Deleting mentions (or hashtags) works on each side of a character that
      is neither the marker nor a word character: it is kept in place, and so
      is the text around it. */
  lemma {:induction false} StripMarkedSplit(u: string, c: char, v: string, marker: char, isAlnum: char -> bool)
    requires c != marker && !IsWordChar(c, isAlnum)
    ensures StripMarked(u + [c] + v, marker, isAlnum) ==
      StripMarked(u, marker, isAlnum) + [c] + StripMarked(v, marker, isAlnum)
    decreases |u|
  {
    if u == [] {
      assert u + [c] + v == [c] + v;
      StripMarkedKeepHead([c] + v, marker, isAlnum);
      assert ([c] + v)[1..] == v;
    } else {
      MarkedMatchBeforeStop(u, c, v, marker, isAlnum);
      var n := MarkedMatch(u, marker, isAlnum);
      if n > 0 {
        SplitDrop(u, c, v, n);
        StripMarkedDropMatch(u + [c] + v, marker, isAlnum);
        StripMarkedDropMatch(u, marker, isAlnum);
        StripMarkedSplit(u[n..], c, v, marker, isAlnum);
      } else {
        SplitHead(u, c, v);
        StripMarkedKeepHead(u + [c] + v, marker, isAlnum);
        StripMarkedKeepHead(u, marker, isAlnum);
        StripMarkedSplit(u[1..], c, v, marker, isAlnum);
        ConsAssoc(u[0], StripMarked(u[1..], marker, isAlnum), c, StripMarked(v, marker, isAlnum));
      }
    }
  }

  /** Deleting marked words keeps a first character at which no match starts. */
  lemma StripMarkedKeepHead(s: string, marker: char, isAlnum: char -> bool)
    requires s != [] && MarkedMatch(s, marker, isAlnum) == 0
    ensures StripMarked(s, marker, isAlnum) == [s[0]] + StripMarked(s[1..], marker, isAlnum)
  {
  }

  /** Deleting marked words drops a match at the front and goes on after it. */
  lemma StripMarkedDropMatch(s: string, marker: char, isAlnum: char -> bool)
    requires MarkedMatch(s, marker, isAlnum) > 0
    ensures StripMarked(s, marker, isAlnum) == StripMarked(s[MarkedMatch(s, marker, isAlnum)..], marker, isAlnum)
  {
  }

  /** Characters before the first place a match starts are kept, in place,
      at the front of the result. */
  lemma {:induction false} StripMarkedKeepsPrefix(s: string, k: nat, marker: char, isAlnum: char -> bool)
    requires k <= |s| && forall i :: 0 <= i < k ==> !StartsMarked(s[i..], marker, isAlnum)
    ensures k <= |StripMarked(s, marker, isAlnum)| && StripMarked(s, marker, isAlnum)[..k] == s[..k]
    decreases k
  {
    if k > 0 {
      assert s[0..] == s;
      forall i | 0 <= i < k - 1 ensures !StartsMarked(s[1..][i..], marker, isAlnum) {
        assert s[1..][i..] == s[i + 1..];
      }
      StripMarkedKeepsPrefix(s[1..], k - 1, marker, isAlnum);
      assert StripMarked(s, marker, isAlnum) == [s[0]] + StripMarked(s[1..], marker, isAlnum);
      assert s[..k] == [s[0]] + s[1..][..k - 1];
    }
  }

  // ---------------------------------------------------------------------------
  // Step 5: re.sub(r"\d+", "", text) -- deleting every digit run deletes every digit
  // ---------------------------------------------------------------------------

  function StripDigits(s: string): (r: string)
    ensures |r| <= |s|
    ensures forall i :: 0 <= i < |r| ==> r[i] in s && !IsDigit(r[i])
  {
    if s == [] then []
    else if IsDigit(s[0]) then StripDigits(s[1..])
    else [s[0]] + StripDigits(s[1..])
  }

  /** Every character that is not a digit is kept, as often as it occurs. */
  lemma {:induction false} StripDigitsKeepsOthers(s: string)
    ensures forall c :: !IsDigit(c) ==> multiset(StripDigits(s))[c] == multiset(s)[c]
    decreases |s|
  {
    if s != [] {
      assert s == [s[0]] + s[1..];
      StripDigitsKeepsOthers(s[1..]);
    }
  }

  /** Digits are deleted one by one, so the text on each side of any cut is
      filtered on its own and the kept characters stay in order. */
  lemma {:induction false} StripDigitsAppend(a: string, b: string)
    ensures StripDigits(a + b) == StripDigits(a) + StripDigits(b)
    decreases |a|
  {
    if a == [] {
      assert a + b == b;
    } else {
      assert (a + b)[0] == a[0] && (a + b)[1..] == a[1..] + b;
      StripDigitsAppend(a[1..], b);
    }
  }

  // ---------------------------------------------------------------------------
  // Step 6: text.encode("ascii", "ignore").decode()
  // ---------------------------------------------------------------------------

  function KeepAscii(s: string): (r: string)
    ensures |r| <= |s|
    ensures forall i :: 0 <= i < |r| ==> r[i] in s && IsAscii(r[i])
  {
    if s == [] then []
    else if IsAscii(s[0]) then [s[0]] + KeepAscii(s[1..])
    else KeepAscii(s[1..])
  }

  /** Every ASCII character is kept, as often as it occurs. */
  lemma {:induction false} KeepAsciiKeepsAscii(s: string)
    ensures forall c :: IsAscii(c) ==> multiset(KeepAscii(s))[c] == multiset(s)[c]
    decreases |s|
  {
    if s != [] {
      assert s == [s[0]] + s[1..];
      KeepAsciiKeepsAscii(s[1..]);
    }
  }

  /** The ASCII filter works character by character, so the text on each
      side of any cut is filtered on its own and the kept characters stay in
      order. */
  lemma {:induction false} KeepAsciiAppend(a: string, b: string)
    ensures KeepAscii(a + b) == KeepAscii(a) + KeepAscii(b)
    decreases |a|
  {
    if a == [] {
      assert a + b == b;
    } else {
      assert (a + b)[0] == a[0] && (a + b)[1..] == a[1..] + b;
      KeepAsciiAppend(a[1..], b);
    }
  }

  // ---------------------------------------------------------------------------
  // Step 7: re.sub(f"[{re.escape(string.punctuation)}]", " ", text)
  // ---------------------------------------------------------------------------

  function PunctuationToSpace(s: string): (r: string)
    ensures |r| == |s|
    ensures forall i :: 0 <= i < |s| ==> r[i] == if IsPunctuation(s[i]) then ' ' else s[i]
  {
    if s == [] then []
    else [if IsPunctuation(s[0]) then ' ' else s[0]] + PunctuationToSpace(s[1..])
  }

  // ---------------------------------------------------------------------------
  // Step 8: re.sub(r"\s+", " ", text).strip()
  // ---------------------------------------------------------------------------

  /** Number of whitespace characters at the front of `s`. */
  function LeadingSpaceCount(s: string): (k: nat)
    ensures k <= |s|
    ensures forall i :: 0 <= i < k ==> IsSpace(s[i])
    ensures k < |s| ==> !IsSpace(s[k])
  {
    Run(s, IsSpace)
  }


  /** `s` without its leading whitespace run (`str.lstrip()`). */
  function DropLeadingSpaces(s: string): (r: string)
    ensures |r| <= |s| && r == s[|s| - |r|..]
    ensures r == [] || !IsSpace(r[0])
    ensures forall i :: 0 <= i < |s| - |r| ==> IsSpace(s[i])
  {
    s[LeadingSpaceCount(s)..]
  }

  /** Replaces every maximal whitespace run by one ' '. */
  function CollapseSpaces(s: string): (r: string)
    ensures SingleSpaced(r)
    ensures s == [] <==> r == []
    ensures r != [] ==> (IsSpace(r[0]) <==> IsSpace(s[0]))
    decreases |s|
  {
    if s == [] then []
    else if IsSpace(s[0]) then [' '] + CollapseSpaces(DropLeadingSpaces(s[1..]))
    else [s[0]] + CollapseSpaces(s[1..])
  }

  /** Collapsing brings in no character but ' ': every other character of
      the result is a non-whitespace character of the input. */
  lemma {:induction false} CollapseSpacesChars(s: string)
    ensures forall i :: 0 <= i < |CollapseSpaces(s)| ==>
      CollapseSpaces(s)[i] == ' ' || (CollapseSpaces(s)[i] in s && !IsSpace(CollapseSpaces(s)[i]))
    decreases |s|
  {
    if s != [] {
      var r := CollapseSpaces(s);
      if IsSpace(s[0]) {
        var t := DropLeadingSpaces(s[1..]);
        CollapseSpacesChars(t);
        assert forall c :: c in t ==> c in s[1..];
        assert r == [' '] + CollapseSpaces(t);
      } else {
        CollapseSpacesChars(s[1..]);
        assert r == [s[0]] + CollapseSpaces(s[1..]);
      }
    }
  }

  /** Dropping leading whitespace removes no other character. */
  lemma DropLeadingKeepsNonSpace(s: string)
    ensures forall c :: !IsSpace(c) ==> multiset(DropLeadingSpaces(s))[c] == multiset(s)[c]
  {
    DropPrefixKeeps(s, LeadingSpaceCount(s), IsNonSpace);
  }

  /** Leading whitespace ends, at the latest, at a non-whitespace character. */
  lemma DropLeadingBeforeNonSpace(u: string, c: char, v: string)
    requires !IsSpace(c)
    ensures DropLeadingSpaces(u + [c] + v) == DropLeadingSpaces(u) + [c] + v
  {
    var s := u + [c] + v;
    assert s == u + ([c] + v);
    RunBeforeStop(u, [c] + v, IsSpace);
    var k := LeadingSpaceCount(u);
    assert s[k..] == u[k..] + [c] + v;
  }

  /** Collapsing works on each side of a non-whitespace character
      separately: the character stays in place between the two collapsed
      parts, so words stay apart and in order. */
  lemma {:induction false} CollapseSpacesSplit(u: string, c: char, v: string)
    requires !IsSpace(c)
    ensures CollapseSpaces(u + [c] + v) == CollapseSpaces(u) + [c] + CollapseSpaces(v)
    decreases |u|
  {
    if u == [] {
      var s := u + [c] + v;
      assert s == [c] + v && s[1..] == v;
    } else if IsSpace(u[0]) {
      CollapseSpacesSplit(DropLeadingSpaces(u[1..]), c, v);
      CollapseSplitAfterSpace(u, c, v);
    } else {
      CollapseSpacesSplit(u[1..], c, v);
      CollapseSplitAfterWord(u, c, v);
    }
  }

  /** The step of `CollapseSpacesSplit` for a text starting with whitespace. */
  lemma CollapseSplitAfterSpace(u: string, c: char, v: string)
    requires u != [] && IsSpace(u[0]) && !IsSpace(c)
    requires CollapseSpaces(DropLeadingSpaces(u[1..]) + [c] + v) ==
      CollapseSpaces(DropLeadingSpaces(u[1..])) + [c] + CollapseSpaces(v)
    ensures CollapseSpaces(u + [c] + v) == CollapseSpaces(u) + [c] + CollapseSpaces(v)
  {
    SplitHead(u, c, v);
    DropLeadingBeforeNonSpace(u[1..], c, v);
    CollapseSpaceHead(u + [c] + v);
    CollapseSpaceHead(u);
    ConsAssoc(' ', CollapseSpaces(DropLeadingSpaces(u[1..])), c, CollapseSpaces(v));
  }

  /** The step of `CollapseSpacesSplit` for a text starting with a
      non-whitespace character. */
  lemma CollapseSplitAfterWord(u: string, c: char, v: string)
    requires u != [] && !IsSpace(u[0]) && !IsSpace(c)
    requires CollapseSpaces(u[1..] + [c] + v) == CollapseSpaces(u[1..]) + [c] + CollapseSpaces(v)
    ensures CollapseSpaces(u + [c] + v) == CollapseSpaces(u) + [c] + CollapseSpaces(v)
  {
    SplitHead(u, c, v);
    CollapseWordHead(u + [c] + v);
    CollapseWordHead(u);
    ConsAssoc(u[0], CollapseSpaces(u[1..]), c, CollapseSpaces(v));
  }

  /** Collapsing a text that starts with whitespace. */
  lemma CollapseSpaceHead(s: string)
    requires s != [] && IsSpace(s[0])
    ensures CollapseSpaces(s) == [' '] + CollapseSpaces(DropLeadingSpaces(s[1..]))
  {
  }

  /** Collapsing a text that starts with a non-whitespace character. */
  lemma CollapseWordHead(s: string)
    requires s != [] && !IsSpace(s[0])
    ensures CollapseSpaces(s) == [s[0]] + CollapseSpaces(s[1..])
  {
  }

  /** What is left of a text split at `c` after cutting `n` characters off `u`. */
  lemma SplitDrop<T>(u: seq<T>, c: T, v: seq<T>, n: nat)
    requires n <= |u|
    ensures (u + [c] + v)[n..] == u[n..] + [c] + v
  {
  }

  /** The first character and the rest of a text split at `c`. */
  lemma SplitHead<T>(u: seq<T>, c: T, v: seq<T>)
    requires u != []
    ensures (u + [c] + v)[0] == u[0] && (u + [c] + v)[1..] == u[1..] + [c] + v
  {
  }

  /** Regrouping a character put in front of a text split at `c`. */
  lemma ConsAssoc<T>(x: T, a: seq<T>, c: T, b: seq<T>)
    ensures [x] + (a + [c] + b) == ([x] + a) + [c] + b
  {
  }

  /** A non-empty whitespace-only text collapses to a single space. */
  lemma CollapseBlank(s: string)
    requires s != [] && AllSpace(s)
    ensures CollapseSpaces(s) == [' ']
  {
    assert DropLeadingSpaces(s[1..]) == [];
  }

  /** Collapsing keeps every non-whitespace character, each as often as it
      occurs in the input. */
  lemma {:induction false} CollapseKeepsNonSpace(s: string)
    ensures forall c :: !IsSpace(c) ==> multiset(CollapseSpaces(s))[c] == multiset(s)[c]
    decreases |s|
  {
    if s != [] {
      assert s == [s[0]] + s[1..];
      if IsSpace(s[0]) {
        var t := DropLeadingSpaces(s[1..]);
        DropLeadingKeepsNonSpace(s[1..]);
        CollapseKeepsNonSpace(t);
        assert CollapseSpaces(s) == [' '] + CollapseSpaces(t);
      } else {
        CollapseKeepsNonSpace(s[1..]);
        assert CollapseSpaces(s) == [s[0]] + CollapseSpaces(s[1..]);
      }
    }
  }

  /** `str.strip()`: both whitespace ends removed; what remains is the slice of
      `s` that starts after its leading whitespace, and only whitespace lies
      before and after it. */
  function Strip(s: string): (r: string)
    ensures r == [] || (!IsSpace(r[0]) && !IsSpace(r[|r| - 1]))
    ensures LeadingSpaceCount(s) + |r| <= |s|
    ensures r == s[LeadingSpaceCount(s)..LeadingSpaceCount(s) + |r|]
    ensures forall i :: 0 <= i < LeadingSpaceCount(s) ==> IsSpace(s[i])
    ensures forall i :: LeadingSpaceCount(s) + |r| <= i < |s| ==> IsSpace(s[i])
  {
    s[LeadingSpaceCount(s)..StripEnd(s)]
  }

  /** Where the text `str.strip()` keeps ends: the end of `s` moved back over
      trailing whitespace, but not before the end of the leading whitespace. */
  function StripEnd(s: string): (e: nat)
    ensures LeadingSpaceCount(s) <= e <= |s|
    ensures forall i :: e <= i < |s| ==> IsSpace(s[i])
    ensures LeadingSpaceCount(s) < e ==> !IsSpace(s[e - 1])
  {
    BackOverSpaces(s, LeadingSpaceCount(s), |s|)
  }

  /** `e` moved back over whitespace, but not below `lo`. */
  function BackOverSpaces(s: string, lo: nat, e: nat): (r: nat)
    requires lo <= e <= |s|
    ensures lo <= r <= e
    ensures forall i :: r <= i < e ==> IsSpace(s[i])
    ensures lo < r ==> !IsSpace(s[r - 1])
    decreases e
  {
    if lo < e && IsSpace(s[e - 1]) then BackOverSpaces(s, lo, e - 1) else e
  }


  // ---------------------------------------------------------------------------
  // The whole chain
  // ---------------------------------------------------------------------------

  /** The shape every normalised text has. */
  predicate NormalForm(r: string) {
    && (forall i :: 0 <= i < |r| ==>
          IsAscii(r[i]) && !IsUpper(r[i]) && !IsDigit(r[i]) && !IsPunctuation(r[i]))
    && (forall i :: 0 <= i < |r| ==> IsSpace(r[i]) ==> r[i] == ' ')
    && (forall i :: 0 <= i < |r| - 1 ==> !(r[i] == ' ' && r[i + 1] == ' '))
    && (r != [] ==> r[0] != ' ' && r[|r| - 1] != ' ')
  }

  /** The deleting steps, in source order: URLs, mentions, hashtags, digits. */
  function Deletions(lowered: string, isAlnum: char -> bool): string {
    StripDigits(StripMarked(StripMarked(StripUrls(lowered), '@', isAlnum), '#', isAlnum))
  }

  /** `preprocess_input`'s rewrites, in the order the source applies them.
      Every normalised text is lower-case ASCII without digits or
      punctuation, with single inner spaces and no space at either end. */
  function Normalize(raw: string, isAlnum: char -> bool): (r: string)
    ensures NormalForm(r)
  {
    var noDigits := Deletions(Lower(raw), isAlnum);
    var spaced := PunctuationToSpace(KeepAscii(noDigits));
    DeletionsKeepLowerCase(raw, isAlnum);
    SpacedIsClean(noDigits);
    CollapsedStripIsNormal(spaced);
    Strip(CollapseSpaces(spaced))
  }

  /** The rewriting half of `preprocess_input`: the text is reassigned by each
      step in turn. */
  method NormalizeText(raw: string, isAlnum: char -> bool) returns (text: string)
    ensures text == Normalize(raw, isAlnum)
  {
    text := Lower(raw);
    text := StripUrls(text);
    text := StripMarked(text, '@', isAlnum);
    text := StripMarked(text, '#', isAlnum);
    text := StripDigits(text);
    text := KeepAscii(text);
    text := PunctuationToSpace(text);
    text := Strip(CollapseSpaces(text));
  }

  /** A character that may appear in normalised text. */
  predicate IsCleanChar(c: char) {
    IsAscii(c) && !IsUpper(c) && !IsDigit(c) && !IsPunctuation(c)
  }

  /** The deleting steps between lower-casing and the ASCII filter bring in no
      upper-case letter. */
  lemma {:induction false} DeletionsKeepLowerCase(raw: string, isAlnum: char -> bool)
    ensures forall c :: c in Deletions(Lower(raw), isAlnum) ==> !IsUpper(c)
  {
    var lowered := Lower(raw);
    var noUrls := StripUrls(lowered);
    var noMentions := StripMarked(noUrls, '@', isAlnum);
    var noHashtags := StripMarked(noMentions, '#', isAlnum);
    var noDigits := StripDigits(noHashtags);
    assert forall c :: c in lowered ==> !IsUpper(c);
    assert forall c :: c in noUrls ==> c in lowered;
    assert forall c :: c in noMentions ==> c in noUrls;
    assert forall c :: c in noHashtags ==> c in noMentions;
    assert forall c :: c in noDigits ==> c in noHashtags;
  }

  /** After the ASCII filter and the punctuation step, every character is clean. */
  lemma {:induction false} SpacedIsClean(noDigits: string)
    requires forall c :: c in noDigits ==> !IsUpper(c) && !IsDigit(c)
    ensures forall i :: 0 <= i < |PunctuationToSpace(KeepAscii(noDigits))| ==>
      IsCleanChar(PunctuationToSpace(KeepAscii(noDigits))[i])
  {
    var ascii := KeepAscii(noDigits);
    assert forall i :: 0 <= i < |ascii| ==> IsAscii(ascii[i]) && !IsUpper(ascii[i]) && !IsDigit(ascii[i]);
  }

  /** Collapsing a clean text keeps it clean, and its only whitespace is ' '. */
  lemma CollapsedIsClean(spaced: string)
    requires forall i :: 0 <= i < |spaced| ==> IsCleanChar(spaced[i])
    ensures forall i :: 0 <= i < |CollapseSpaces(spaced)| ==>
      IsCleanChar(CollapseSpaces(spaced)[i]) && (IsSpace(CollapseSpaces(spaced)[i]) ==> CollapseSpaces(spaced)[i] == ' ')
  {
    var collapsed := CollapseSpaces(spaced);
    CollapseSpacesChars(spaced);
    forall i | 0 <= i < |collapsed|
      ensures IsCleanChar(collapsed[i]) && (IsSpace(collapsed[i]) ==> collapsed[i] == ' ')
    {
      if collapsed[i] != ' ' {
        var j :| 0 <= j < |spaced| && spaced[j] == collapsed[i];
      }
    }
  }

  /** Every character is clean and every whitespace character is ' '. */
  predicate CleanSpaced(s: string) {
    forall i :: 0 <= i < |s| ==> IsCleanChar(s[i]) && (IsSpace(s[i]) ==> s[i] == ' ')
  }

  /** No two adjacent whitespace characters. */
  predicate SingleSpaced(s: string) {
    forall i, j :: 0 <= i < |s| && j == i + 1 && j < |s| ==> !IsSpace(s[i]) || !IsSpace(s[j])
  }

  /** A clean text whose only whitespace is single inner spaces is in normal form. */
  lemma NormalFormIntro(r: string)
    requires CleanSpaced(r) && SingleSpaced(r)
    requires r == [] || (!IsSpace(r[0]) && !IsSpace(r[|r| - 1]))
    ensures NormalForm(r)
  {
    assert IsSpace(' ');
    forall i | 0 <= i < |r| - 1 ensures !(r[i] == ' ' && r[i + 1] == ' ') {
      assert !IsSpace(r[i]) || !IsSpace(r[i + 1]);
    }
  }

  /** A slice of a clean, single-spaced text is one too. */
  lemma SliceKeepsShape(s: string, off: nat, r: string)
    requires off + |r| <= |s|
    requires forall i :: 0 <= i < |r| ==> r[i] == s[off + i]
    requires CleanSpaced(s) && SingleSpaced(s)
    ensures CleanSpaced(r) && SingleSpaced(r)
  {
    forall i, j | 0 <= i < |r| && j == i + 1 && j < |r|
      ensures !IsSpace(r[i]) || !IsSpace(r[j])
    {
      assert r[i] == s[off + i] && r[j] == s[off + j];
    }
  }

  /** Stripping a clean, single-spaced text gives normal form. */
  lemma StrippedIsNormal(collapsed: string)
    requires CleanSpaced(collapsed) && SingleSpaced(collapsed)
    ensures NormalForm(Strip(collapsed))
  {
    StripKeepsShape(collapsed);
    NormalFormIntro(Strip(collapsed));
  }

  lemma StripKeepsShape(s: string)
    requires CleanSpaced(s) && SingleSpaced(s)
    ensures CleanSpaced(Strip(s)) && SingleSpaced(Strip(s))
  {
    SliceKeepsShape(s, LeadingSpaceCount(s), Strip(s));
  }

  /** Collapsing and stripping a clean text gives a text in normal form. */
  lemma CollapsedStripIsNormal(spaced: string)
    requires forall i :: 0 <= i < |spaced| ==> IsCleanChar(spaced[i])
    ensures NormalForm(Strip(CollapseSpaces(spaced)))
  {
    CollapsedIsClean(spaced);
    StrippedIsNormal(CollapseSpaces(spaced));
  }

  /** Every character of `s` is whitespace. */
  predicate AllSpace(s: string) {
    forall i :: 0 <= i < |s| ==> IsSpace(s[i])
  }

  lemma BlankUrls(s: string)
    requires AllSpace(s)
    ensures AllSpace(StripUrls(s))
  {
    var r := StripUrls(s);
    forall i | 0 <= i < |r| ensures IsSpace(r[i]) {
      var k :| 0 <= k < |s| && s[k] == r[i];
    }
  }

  lemma BlankMarked(s: string, marker: char, isAlnum: char -> bool)
    requires AllSpace(s)
    ensures AllSpace(StripMarked(s, marker, isAlnum))
  {
    var r := StripMarked(s, marker, isAlnum);
    forall i | 0 <= i < |r| ensures IsSpace(r[i]) {
      var k :| 0 <= k < |s| && s[k] == r[i];
    }
  }

  lemma BlankDigits(s: string)
    requires AllSpace(s)
    ensures AllSpace(StripDigits(s))
  {
    var r := StripDigits(s);
    forall i | 0 <= i < |r| ensures IsSpace(r[i]) {
      var k :| 0 <= k < |s| && s[k] == r[i];
    }
  }

  /** The deleting steps bring no character into a whitespace-only text. */
  lemma BlankDeletions(raw: string, isAlnum: char -> bool)
    requires AllSpace(raw)
    ensures AllSpace(Deletions(Lower(raw), isAlnum))
  {
    var lowered := Lower(raw);
    assert AllSpace(lowered);
    var noUrls := StripUrls(lowered);
    BlankUrls(lowered);
    var noMentions := StripMarked(noUrls, '@', isAlnum);
    BlankMarked(noUrls, '@', isAlnum);
    var noHashtags := StripMarked(noMentions, '#', isAlnum);
    BlankMarked(noMentions, '#', isAlnum);
    BlankDigits(noHashtags);
  }

  lemma BlankAscii(s: string)
    requires AllSpace(s)
    ensures AllSpace(KeepAscii(s))
  {
    var r := KeepAscii(s);
    forall i | 0 <= i < |r| ensures IsSpace(r[i]) {
      var k :| 0 <= k < |s| && s[k] == r[i];
    }
  }

  /** Empty and whitespace-only comments normalise to the empty text. */
  lemma BlankNormalizesToEmpty(raw: string, isAlnum: char -> bool)
    requires AllSpace(raw)
    ensures Normalize(raw, isAlnum) == ""
  {
    var noDigits := Deletions(Lower(raw), isAlnum);
    BlankDeletions(raw, isAlnum);
    BlankAscii(noDigits);
    var spaced := PunctuationToSpace(KeepAscii(noDigits));
    assert AllSpace(spaced);
    var collapsed := CollapseSpaces(spaced);
    CollapseSpacesChars(spaced);
    assert AllSpace(collapsed);
    assert LeadingSpaceCount(collapsed) == |collapsed|;
    assert Normalize(raw, isAlnum) == Strip(collapsed);
  }

}
