/** Masking credentials in the components of a URL that has already been split. */
module Redaction {
  import opened Splitting

  const REDACTED := "***"
  const XTREAM_PATH_PREFIXES := {"live", "movie", "series", "timeshift"}

  /* The user information of the network location, section 3.2.1 of RFC 3986 */

  /** The text after the last '@'. */
  function Host(netloc: string): (host: string)
    ensures '@' !in host
  {
    if '@' !in netloc then netloc else Host(netloc[1..])
  }

  function RedactNetloc(netloc: string): string {
    if '@' !in netloc then netloc else REDACTED + "@" + Host(netloc)
  }

  lemma {:induction false} HostOf(user: string, host: string)
    requires '@' !in host
    ensures Host(user + "@" + host) == host
    decreases |user|
  {
    var netloc := user + "@" + host;
    assert netloc[|user|] == '@';
    if user == "" {
      assert netloc[1..] == host;
    } else {
      assert netloc[1..] == user[1..] + "@" + host;
      HostOf(user[1..], host);
    }
  }

  lemma NetlocKeepsOnlyTheHost(user: string, host: string)
    requires '@' !in host
    ensures RedactNetloc(user + "@" + host) == REDACTED + "@" + host
    ensures RedactNetloc(host) == host
  {
    HostOf(user, host);
    assert (user + "@" + host)[|user|] == '@';
  }

  lemma {:induction false} SplitAtHost(netloc: string) returns (user: string)
    requires '@' in netloc
    ensures netloc == user + "@" + Host(netloc)
    decreases |netloc|
  {
    if '@' in netloc[1..] {
      user := SplitAtHost(netloc[1..]);
      user := [netloc[0]] + user;
    } else {
      user := "";
      assert netloc[0] == '@';
    }
  }

  lemma NetlocIdempotent(netloc: string)
    ensures RedactNetloc(RedactNetloc(netloc)) == RedactNetloc(netloc)
  {
    NetlocKeepsOnlyTheHost(REDACTED, Host(netloc));
  }

  /* The path */

  function Lower(s: string): (r: string)
    ensures |r| == |s|
  {
    if s == "" then "" else [if 'A' <= s[0] <= 'Z' then (s[0] as int + 32) as char else s[0]] + Lower(s[1..])
  }

  predicate IsPrefix(segment: string) {
    Lower(segment) in XTREAM_PATH_PREFIXES
  }

  predicate Digit(c: char) {
    '0' <= c <= '9'
  }

  predicate Alphanumeric(c: char) {
    Digit(c) || 'A' <= c <= 'Z' || 'a' <= c <= 'z'
  }

  /** Digits, then optionally a dot and an extension. */
  predicate StreamId(s: string) {
    exists n :: 0 < n <= |s| && IdWithDigits(s, n)
  }

  predicate IdWithDigits(s: string, n: nat)
    requires n <= |s|
  {
    (forall i :: 0 <= i < n ==> Digit(s[i])) &&
    (n == |s| || (s[n] == '.' && n + 1 < |s| && forall i :: n < i < |s| ==> Alphanumeric(s[i])))
  }

  /** Where the non-empty segments are. */
  function FilledFrom(segments: seq<string>, i: nat): (f: seq<nat>)
    requires i <= |segments|
    ensures forall k :: 0 <= k < |f| ==> i <= f[k] < |segments| && segments[f[k]] != ""
    ensures forall j, k :: 0 <= j < k < |f| ==> f[j] < f[k]
    decreases |segments| - i
  {
    if i == |segments| then []
    else if segments[i] != "" then [i] + FilledFrom(segments, i + 1)
    else FilledFrom(segments, i + 1)
  }

  /** The places found are exactly those of the non-empty segments. */
  lemma {:induction false} FilledExactly(segments: seq<string>, i: nat, j: nat)
    requires i <= j < |segments|
    ensures j in FilledFrom(segments, i) <==> segments[j] != ""
    decreases |segments| - i
  {
    if i < j {
      FilledExactly(segments, i + 1, j);
    }
  }

  function Filled(segments: seq<string>): seq<nat> {
    FilledFrom(segments, 0)
  }

  predicate Places(segments: seq<string>, f: seq<nat>) {
    && (forall k :: 0 <= k < |f| ==> f[k] < |segments|)
    && (forall j, k :: 0 <= j < k < |f| ==> f[j] < f[k])
  }

  function Mask(segments: seq<string>, a: nat, b: nat): seq<string>
    requires a < |segments| && b < |segments|
  {
    segments[a := REDACTED][b := REDACTED]
  }

  /** The loop from turn `n` on: a segment masked by an earlier turn is no prefix any more. */
  function MaskFrom(segments: seq<string>, f: seq<nat>, n: nat): (out: seq<string>)
    requires Places(segments, f)
    ensures |out| == |segments|
    decreases |f| - n
  {
    if n + 2 >= |f| then segments
    else MaskFrom(if IsPrefix(segments[f[n]]) then Mask(segments, f[n + 1], f[n + 2]) else segments, f, n + 1)
  }

  predicate BareRoute(segments: seq<string>, f: seq<nat>)
    requires Places(segments, f)
  {
    |f| == 3 && !IsPrefix(segments[f[0]]) && StreamId(segments[f[2]])
  }

  function RedactSegments(segments: seq<string>): (out: seq<string>)
    ensures |out| == |segments|
  {
    var f := Filled(segments);
    var masked := MaskFrom(segments, f, 0);
    if masked == segments && BareRoute(segments, f) then Mask(segments, f[0], f[1]) else masked
  }

  function RedactPath(path: string): string {
    Join(RedactSegments(Split(path, '/')), '/')
  }

  /** After every prefix from turn `n` on that has two segments behind it, both are masked. */
  ghost predicate Settled(segments: seq<string>, f: seq<nat>, n: nat)
    requires Places(segments, f)
  {
    forall m :: n <= m && m + 2 < |f| && IsPrefix(segments[f[m]]) ==>
      segments[f[m + 1]] == REDACTED && segments[f[m + 2]] == REDACTED
  }

  /** Segment `k` is one of the two behind a prefix. */
  ghost predicate Behind(segments: seq<string>, f: seq<nat>, n: nat, k: nat)
    requires Places(segments, f)
  {
    exists m :: n <= m < k <= m + 2 && m + 2 < |f| && IsPrefix(segments[f[m]])
  }

  lemma MaskIsNoPrefix()
    ensures !IsPrefix(REDACTED)
  {
    assert |Lower(REDACTED)| == 3;
  }

  lemma {:induction false} MaskFromKeeps(segments: seq<string>, f: seq<nat>, n: nat)
    requires Places(segments, f)
    ensures var out := MaskFrom(segments, f, n); |out| == |segments|
    ensures var out := MaskFrom(segments, f, n); forall i :: 0 <= i < |segments| ==> out[i] == segments[i] || (out[i] == REDACTED && i in f)
    ensures var out := MaskFrom(segments, f, n); forall k :: 0 <= k <= n && k < |f| ==> out[f[k]] == segments[f[k]]
    decreases |f| - n
  {
    if n + 2 < |f| {
      MaskFromKeeps(if IsPrefix(segments[f[n]]) then Mask(segments, f[n + 1], f[n + 2]) else segments, f, n + 1);
    }
  }

  lemma {:induction false} MaskFromSettles(segments: seq<string>, f: seq<nat>, n: nat)
    requires Places(segments, f)
    ensures Places(MaskFrom(segments, f, n), f) && Settled(MaskFrom(segments, f, n), f, n)
    decreases |f| - n
  {
    if n + 2 < |f| {
      var next := if IsPrefix(segments[f[n]]) then Mask(segments, f[n + 1], f[n + 2]) else segments;
      MaskFromKeeps(next, f, n + 1);
      MaskFromSettles(next, f, n + 1);
      var out := MaskFrom(next, f, n + 1);
      assert out[f[n]] == next[f[n]] == segments[f[n]];
      assert IsPrefix(out[f[n]]) ==> out[f[n + 1]] == REDACTED && out[f[n + 2]] == REDACTED;
      SettledOneMore(out, f, n);
    }
  }

  lemma SettledOneMore(segments: seq<string>, f: seq<nat>, n: nat)
    requires Places(segments, f) && n + 2 < |f| && Settled(segments, f, n + 1)
    requires IsPrefix(segments[f[n]]) ==> segments[f[n + 1]] == REDACTED && segments[f[n + 2]] == REDACTED
    ensures Settled(segments, f, n)
  {
  }

  lemma {:induction false} MaskFromOnlyBehind(segments: seq<string>, f: seq<nat>, n: nat, k: nat)
    requires Places(segments, f) && k < |f|
    ensures Places(MaskFrom(segments, f, n), f)
    ensures MaskFrom(segments, f, n)[f[k]] != segments[f[k]] ==> Behind(MaskFrom(segments, f, n), f, n, k)
    decreases |f| - n
  {
    MaskFromKeeps(segments, f, n);
    if n + 2 < |f| {
      var next := if IsPrefix(segments[f[n]]) then Mask(segments, f[n + 1], f[n + 2]) else segments;
      MaskFromKeeps(next, f, n + 1);
      MaskFromOnlyBehind(next, f, n + 1, k);
      var out := MaskFrom(segments, f, n);
      if out[f[k]] != segments[f[k]] && next[f[k]] != segments[f[k]] {
        assert n < k <= n + 2 && IsPrefix(out[f[n]]);
      }
    }
  }

  lemma {:induction false} SettledIsFixed(segments: seq<string>, f: seq<nat>, n: nat)
    requires Places(segments, f) && Settled(segments, f, n)
    ensures MaskFrom(segments, f, n) == segments
    decreases |f| - n
  {
    if n + 2 < |f| {
      var next := if IsPrefix(segments[f[n]]) then Mask(segments, f[n + 1], f[n + 2]) else segments;
      assert next == segments;
      SettledIsFixed(segments, f, n + 1);
    }
  }

  /** Which segments are empty, and nothing else about them, decides where the filled ones are. */
  predicate SameGaps(segments: seq<string>, out: seq<string>) {
    |out| == |segments| && forall j :: 0 <= j < |segments| ==> (out[j] == "" <==> segments[j] == "")
  }

  lemma {:induction false} FilledDepends(segments: seq<string>, out: seq<string>, i: nat)
    requires SameGaps(segments, out) && i <= |segments|
    ensures FilledFrom(out, i) == FilledFrom(segments, i)
    decreases |segments| - i
  {
    if i < |segments| {
      FilledDepends(segments, out, i + 1);
      assert out[i] == "" <==> segments[i] == "";
    }
  }

  predicate KeptOrMasked(segments: seq<string>, out: seq<string>) {
    |out| == |segments| &&
    forall i :: 0 <= i < |segments| ==> out[i] == segments[i] || (out[i] == REDACTED && segments[i] != "")
  }

  /** Segments keep their number and places; empty ones stay empty and any other is kept or masked. */
  lemma SegmentsKeepTheirPlaces(segments: seq<string>)
    ensures KeptOrMasked(segments, RedactSegments(segments))
    ensures Filled(RedactSegments(segments)) == Filled(segments)
  {
    MaskFromKeeps(segments, Filled(segments), 0);
    assert KeptOrMasked(segments, RedactSegments(segments));
    KeptGaps(segments, RedactSegments(segments));
    FilledDepends(segments, RedactSegments(segments), 0);
  }

  lemma KeptGaps(segments: seq<string>, out: seq<string>)
    requires KeptOrMasked(segments, out)
    ensures SameGaps(segments, out)
  {
  }

  /** Masking the first two of three segments leaves no prefix with anything behind it. */
  lemma BareRouteSettles(segments: seq<string>, f: seq<nat>)
    requires Places(segments, f) && |f| == 3
    ensures Settled(Mask(segments, f[0], f[1]), f, 0) && !IsPrefix(Mask(segments, f[0], f[1])[f[0]])
  {
    MaskIsNoPrefix();
    assert Mask(segments, f[0], f[1])[f[0]] == REDACTED;
  }

  /** Whatever prefix the result still shows has its two credentials masked. */
  lemma SurvivingPrefixesAreMasked(segments: seq<string>)
    ensures Places(RedactSegments(segments), Filled(segments))
    ensures Settled(RedactSegments(segments), Filled(segments), 0)
  {
    var f := Filled(segments);
    if MaskFrom(segments, f, 0) == segments && BareRoute(segments, f) {
      BareRouteSettles(segments, f);
    } else {
      MaskFromSettles(segments, f, 0);
    }
  }

  /** And nothing else is: a segment changes only behind a prefix that survives, or on the bare route. */
  lemma OnlyCredentialsAreMasked(segments: seq<string>, k: nat)
    requires k < |Filled(segments)|
    requires var i := Filled(segments)[k]; |RedactSegments(segments)| > i && RedactSegments(segments)[i] != segments[i]
    ensures Places(RedactSegments(segments), Filled(segments))
    ensures Behind(RedactSegments(segments), Filled(segments), 0, k) || (BareRoute(segments, Filled(segments)) && k < 2)
  {
    SegmentsKeepTheirPlaces(segments);
    MaskFromOnlyBehind(segments, Filled(segments), 0, k);
  }

  /** No rule has anything left to mask. */
  ghost predicate Untouched(segments: seq<string>) {
    var f := Filled(segments);
    Settled(segments, f, 0) && (BareRoute(segments, f) ==> segments[f[0]] == REDACTED && segments[f[1]] == REDACTED)
  }

  lemma IdentityIffUntouched(segments: seq<string>)
    ensures RedactSegments(segments) == segments <==> Untouched(segments)
  {
    var f := Filled(segments);
    MaskFromSettles(segments, f, 0);
    if Settled(segments, f, 0) {
      SettledIsFixed(segments, f, 0);
    }
    if BareRoute(segments, f) {
      assert RedactSegments(segments) == segments && MaskFrom(segments, f, 0) == segments ==>
        segments == Mask(segments, f[0], f[1]);
    }
  }

  lemma ResultIsUntouched(segments: seq<string>)
    ensures Untouched(RedactSegments(segments))
  {
    var f := Filled(segments);
    var out := RedactSegments(segments);
    SegmentsKeepTheirPlaces(segments);
    SurvivingPrefixesAreMasked(segments);
    MaskFromKeeps(segments, f, 0);
    if BareRoute(out, f) {
      BareRouteStays(segments);
    }
  }

  lemma FirstPrefixStays(segments: seq<string>)
    requires |Filled(segments)| == 3
    ensures Places(RedactSegments(segments), Filled(segments))
    ensures var f := Filled(segments); IsPrefix(RedactSegments(segments)[f[0]]) <==> IsPrefix(segments[f[0]])
  {
    var f := Filled(segments);
    if MaskFrom(segments, f, 0) == segments && BareRoute(segments, f) {
      BareRouteSettles(segments, f);
    } else {
      MaskFromKeeps(segments, f, 0);
    }
  }

  lemma NoPrefixNoMask(segments: seq<string>, f: seq<nat>)
    requires Places(segments, f) && |f| == 3 && !IsPrefix(segments[f[0]])
    ensures MaskFrom(segments, f, 0) == segments
  {
    SettledIsFixed(segments, f, 0);
  }

  /** On three segments only the first can be a prefix with credentials behind it. */
  lemma BareRouteStays(segments: seq<string>)
    requires var f := Filled(segments); |f| == 3 && Places(RedactSegments(segments), f) && BareRoute(RedactSegments(segments), f)
    ensures var f := Filled(segments); RedactSegments(segments) == Mask(segments, f[0], f[1])
  {
    var f := Filled(segments);
    FirstPrefixStays(segments);
    NoPrefixNoMask(segments, f);
    LastStays(segments);
    assert BareRoute(segments, f);
  }

  lemma LastStays(segments: seq<string>)
    requires var f := Filled(segments); |f| == 3 && MaskFrom(segments, f, 0) == segments
    ensures RedactSegments(segments)[Filled(segments)[2]] == segments[Filled(segments)[2]]
  {
  }

  lemma PathIdempotent(path: string)
    ensures RedactPath(RedactPath(path)) == RedactPath(path)
  {
    var segments := Split(path, '/');
    var out := RedactSegments(segments);
    SegmentsKeepTheirPlaces(segments);
    SplitJoin(out, '/');
    ResultIsUntouched(segments);
    IdentityIffUntouched(out);
  }

  lemma PathIdentityIffUntouched(path: string)
    ensures RedactPath(path) == path <==> Untouched(Split(path, '/'))
  {
    var segments := Split(path, '/');
    var out := RedactSegments(segments);
    SegmentsKeepTheirPlaces(segments);
    SplitJoin(out, '/');
    JoinSplit(path, '/');
    IdentityIffUntouched(segments);
  }

  lemma NoSeparator(s: string, sep: char)
    requires sep !in s
    ensures Split(s, sep) == [s]
  {
    SplitPrepends(s, "", sep);
    assert s + "" == s;
  }

  /* The path rules on literal text */

  /** The text is the word, in any letter case. */
  predicate Spells(s: string, word: string) {
    |s| == |word| && forall i :: 0 <= i < |s| ==> s[i] == word[i] || ('A' <= s[i] <= 'Z' && s[i] as int + 32 == word[i] as int)
  }

  predicate LowerCase(word: string) {
    forall i :: 0 <= i < |word| ==> !('A' <= word[i] <= 'Z')
  }

  lemma {:induction false} LowerSpells(s: string, word: string)
    requires LowerCase(word)
    ensures Lower(s) == word <==> Spells(s, word)
    decreases |s|
  {
    if s != "" && |s| == |word| {
      LowerSpells(s[1..], word[1..]);
      assert s == [s[0]] + s[1..] && word == [word[0]] + word[1..];
      assert Spells(s, word) <==> Spells([s[0]], [word[0]]) && Spells(s[1..], word[1..]) by {
        assert forall i :: 0 < i < |s| ==> s[i] == s[1..][i - 1] && word[i] == word[1..][i - 1];
      }
    }
  }

  /** The four words, in any letter case. */
  lemma PrefixWords(segment: string)
    ensures IsPrefix(segment) <==>
      Spells(segment, "live") || Spells(segment, "movie") || Spells(segment, "series") || Spells(segment, "timeshift")
  {
    LowerSpells(segment, "live");
    LowerSpells(segment, "movie");
    LowerSpells(segment, "series");
    LowerSpells(segment, "timeshift");
  }

  lemma SplitRedactedPath(path: string)
    ensures Split(RedactPath(path), '/') == RedactSegments(Split(path, '/'))
  {
    SegmentsKeepTheirPlaces(Split(path, '/'));
    SplitJoin(RedactSegments(Split(path, '/')), '/');
  }

  /** The next segment that is not empty is the next place the rules look at. */
  lemma NextFilled(segments: seq<string>, m: nat, b: nat)
    requires m < |Filled(segments)| && Filled(segments)[m] < b < |segments| && segments[b] != ""
    requires forall j :: Filled(segments)[m] < j < b ==> segments[j] == ""
    ensures m + 1 < |Filled(segments)| && Filled(segments)[m + 1] == b
  {
    FilledExactly(segments, 0, b);
    var k :| 0 <= k < |Filled(segments)| && Filled(segments)[k] == b;
  }

  predicate NextTo(segments: seq<string>, a: nat, b: nat) {
    a < b < |segments| && segments[b] != "" && forall j :: a < j < b ==> segments[j] == ""
  }

  lemma PlaceOf(segments: seq<string>, a: nat, b: nat, c: nat) returns (m: nat)
    requires a < |segments| && segments[a] != "" && NextTo(segments, a, b) && NextTo(segments, b, c)
    ensures var f := Filled(segments); m + 2 < |f| && f[m] == a && f[m + 1] == b && f[m + 2] == c
  {
    var f := Filled(segments);
    FilledExactly(segments, 0, a);
    m :| m < |f| && f[m] == a;
    NextFilled(segments, m, b);
    NextFilled(segments, m + 1, c);
  }

  lemma PrefixMasksTwo(segments: seq<string>, a: nat, b: nat, c: nat)
    requires a < |segments| && IsPrefix(segments[a]) && NextTo(segments, a, b) && NextTo(segments, b, c)
    ensures var out := RedactSegments(segments); out[a] == segments[a] ==> out[b] == REDACTED && out[c] == REDACTED
  {
    EmptyIsNoPrefix();
    var m := PlaceOf(segments, a, b, c);
    SurvivingPrefixesAreMasked(segments);
  }

  lemma EmptyIsNoPrefix()
    ensures !IsPrefix("")
  {
  }

  /** Only a prefix before it can mask a segment with two more behind it. */
  lemma FirstPrefixIsKept(segments: seq<string>, a: nat, b: nat, c: nat)
    requires a < |segments| && IsPrefix(segments[a]) && NextTo(segments, a, b) && NextTo(segments, b, c)
    requires forall j :: 0 <= j < a ==> !IsPrefix(segments[j])
    ensures RedactSegments(segments)[a] == segments[a]
  {
    EmptyIsNoPrefix();
    var m := PlaceOf(segments, a, b, c);
    NoneBehind(segments, m);
    if RedactSegments(segments)[a] != segments[a] {
      OnlyCredentialsAreMasked(segments, m);
    }
  }

  lemma NoneBehind(segments: seq<string>, m: nat)
    requires m < |Filled(segments)| && forall j :: 0 <= j < Filled(segments)[m] ==> !IsPrefix(segments[j])
    ensures Places(RedactSegments(segments), Filled(segments)) && !Behind(RedactSegments(segments), Filled(segments), 0, m)
  {
    var f, out := Filled(segments), RedactSegments(segments);
    MaskIsNoPrefix();
    SegmentsKeepTheirPlaces(segments);
    forall k | 0 <= k < m ensures !IsPrefix(out[f[k]]) {
      assert out[f[k]] == segments[f[k]] || out[f[k]] == REDACTED;
    }
  }

  /** Wherever one of the four words stands in a path, in any letter case, and is not masked itself, the two
      non-empty segments that follow come out as the mask.  The first such word is never masked itself. */
  lemma WordMasksTwo(path: string, word: string, a: nat, b: nat, c: nat)
    requires word in {"live", "movie", "series", "timeshift"}
    requires var segments := Split(path, '/');
      a < |segments| && Spells(segments[a], word) && NextTo(segments, a, b) && NextTo(segments, b, c)
    ensures var out := Split(RedactPath(path), '/');
      |out| == |Split(path, '/')| && (out[a] == Split(path, '/')[a] ==> out[b] == "***" && out[c] == "***")
    ensures var segments, out := Split(path, '/'), Split(RedactPath(path), '/');
      (forall j :: 0 <= j < a ==> SpellsNone(segments[j])) ==> out[b] == "***" && out[c] == "***"
  {
    var segments := Split(path, '/');
    SplitRedactedPath(path);
    PrefixWords(segments[a]);
    PrefixMasksTwo(segments, a, b, c);
    if forall j :: 0 <= j < a ==> SpellsNone(segments[j]) {
      forall j | 0 <= j < a ensures !IsPrefix(segments[j]) {
        PrefixWords(segments[j]);
      }
      FirstPrefixIsKept(segments, a, b, c);
    }
  }

  ghost predicate IsIdOf(s: string, digits: string, extension: string) {
    && digits != "" && (forall i :: 0 <= i < |digits| ==> '0' <= digits[i] <= '9')
    && (s == digits || (s == digits + "." + extension && extension != "" &&
          forall i :: 0 <= i < |extension| ==> '0' <= extension[i] <= '9' || 'A' <= extension[i] <= 'Z' || 'a' <= extension[i] <= 'z'))
  }

  /** A stream id: digits, or digits, a dot and an extension of letters and digits. */
  lemma StreamIdExactly(s: string)
    ensures StreamId(s) <==> exists digits, extension :: IsIdOf(s, digits, extension)
  {
    if StreamId(s) {
      var n :| 0 < n <= |s| && IdWithDigits(s, n);
      PartsOfId(s, n);
    }
    forall digits, extension | IsIdOf(s, digits, extension) ensures StreamId(s) {
      IdOfParts(s, digits, extension);
    }
  }

  lemma PartsOfId(s: string, n: nat)
    requires 0 < n <= |s| && IdWithDigits(s, n)
    ensures exists digits, extension :: IsIdOf(s, digits, extension)
  {
    if n == |s| {
      assert IsIdOf(s, s, "");
    } else {
      var digits, extension := s[..n], s[n + 1..];
      assert s == digits + "." + extension;
      assert IsIdOf(s, digits, extension);
    }
  }

  lemma IdOfParts(s: string, digits: string, extension: string)
    requires IsIdOf(s, digits, extension)
    ensures StreamId(s)
  {
    var n := |digits|;
    assert forall i :: 0 <= i < n ==> s[i] == digits[i];
    if n < |s| {
      assert s[n] == '.' && forall i :: n < i < |s| ==> s[i] == extension[i - n - 1];
    }
    assert IdWithDigits(s, n);
  }

  predicate SpellsNone(s: string) {
    !Spells(s, "live") && !Spells(s, "movie") && !Spells(s, "series") && !Spells(s, "timeshift")
  }

  /** A path with none of the four words is masked exactly where it is of the root route: three non-empty
      segments, of which the last is a stream id and the other two come out as the mask. */
  lemma WithoutWords(path: string)
    requires forall i :: 0 <= i < |Split(path, '/')| ==> SpellsNone(Split(path, '/')[i])
    ensures var segments := Split(path, '/');
      var f := Filled(segments);
      if |f| == 3 && StreamId(segments[f[2]])
      then Split(RedactPath(path), '/') == segments[f[0] := "***"][f[1] := "***"]
      else RedactPath(path) == path
  {
    var segments := Split(path, '/');
    forall i | 0 <= i < |segments| ensures !IsPrefix(segments[i]) {
      PrefixWords(segments[i]);
    }
    SettledIsFixed(segments, Filled(segments), 0);
    SplitRedactedPath(path);
    JoinSplit(path, '/');
  }

  /** The root route: user and password are masked, and the stream id stays. */
  lemma RootRouteIsMasked(user: string, pass: string, id: string)
    requires user != "" && pass != "" && '/' !in user && '/' !in pass && '/' !in id && StreamId(id)
    requires SpellsNone(user) && SpellsNone(pass)
    ensures RedactPath("/" + user + "/" + pass + "/" + id) == "/***/***/" + id
  {
    var segments := ["", user, pass, id];
    JoinFour(user, pass, id);
    JoinFour("***", "***", id);
    MaskedText("", id);
    SplitJoin(segments, '/');
    IdIsNoWord(id);
    FilledFour(user, pass, id);
    WithoutWords("/" + user + "/" + pass + "/" + id);
    assert segments[1 := "***"][2 := "***"] == ["", "***", "***", id];
    SplitRedactedPath("/" + user + "/" + pass + "/" + id);
  }

  lemma JoinFour(user: string, pass: string, id: string)
    ensures Join(["", user, pass, id], '/') == "/" + user + "/" + pass + "/" + id
  {
    assert ["", user, pass, id] == [""] + [user, pass, id];
    JoinMore("", [user, pass, id]);
    JoinThree(user, pass, id);
    assert "" + "/" + (user + "/" + pass + "/" + id) == "/" + user + "/" + pass + "/" + id;
  }

  lemma JoinThree(user: string, pass: string, id: string)
    ensures Join([user, pass, id], '/') == user + "/" + pass + "/" + id
  {
    assert [user, pass, id] == [user] + [pass, id] && [pass, id] == [pass] + [id];
    JoinMore(user, [pass, id]);
    JoinMore(pass, [id]);
    assert user + "/" + (pass + "/" + id) == user + "/" + pass + "/" + id;
  }

  lemma IdIsNoWord(id: string)
    requires StreamId(id)
    ensures SpellsNone(id) && id != ""
  {
    assert Digit(id[0]);
  }

  lemma FilledFour(user: string, pass: string, id: string)
    requires user != "" && pass != "" && id != ""
    ensures Filled(["", user, pass, id]) == [1, 2, 3]
  {
    var segments := ["", user, pass, id];
    assert FilledFrom(segments, 4) == [];
    assert FilledFrom(segments, 3) == [3];
    assert FilledFrom(segments, 2) == [2, 3];
    assert FilledFrom(segments, 1) == [1, 2, 3];
  }

  /** The prefixed route: user and password are masked, whatever they are, and nothing else is. */
  lemma PrefixedRouteIsMasked(prefix: string, user: string, pass: string, id: string)
    requires Spells(prefix, "live") || Spells(prefix, "movie") || Spells(prefix, "series") || Spells(prefix, "timeshift")
    requires user != "" && pass != "" && id != "" && '/' !in prefix && '/' !in user && '/' !in pass && '/' !in id
    ensures RedactPath("/" + prefix + "/" + user + "/" + pass + "/" + id) == "/" + prefix + "/***/***/" + id
  {
    FiveFree(prefix, user, pass, id);
    RedactJoined(["", prefix, user, pass, id]);
    FiveSegments(prefix, user, pass, id);
    JoinFive(prefix, user, pass, id);
    JoinFive(prefix, "***", "***", id);
    MaskedText("/" + prefix, id);
  }

  lemma MaskedText(head: string, id: string)
    ensures head + "/" + "***" + "/" + "***" + "/" + id == head + "/***/***/" + id
  {
    assert "/" + "***" + "/" + "***" + "/" == "/***/***/";
  }

  lemma RedactJoined(segments: seq<string>)
    requires |segments| > 0 && forall i :: 0 <= i < |segments| ==> Free(segments[i], '/')
    ensures RedactPath(Join(segments, '/')) == Join(RedactSegments(segments), '/')
  {
    SplitJoin(segments, '/');
  }

  lemma FiveFree(prefix: string, user: string, pass: string, id: string)
    requires '/' !in prefix && '/' !in user && '/' !in pass && '/' !in id
    ensures var parts := ["", prefix, user, pass, id]; forall i :: 0 <= i < |parts| ==> Free(parts[i], '/')
  {
  }

  lemma FiveSegments(prefix: string, user: string, pass: string, id: string)
    requires Spells(prefix, "live") || Spells(prefix, "movie") || Spells(prefix, "series") || Spells(prefix, "timeshift")
    requires user != "" && pass != "" && id != ""
    ensures RedactSegments(["", prefix, user, pass, id]) == ["", prefix, "***", "***", id]
  {
    var segments, f := ["", prefix, user, pass, id], [1, 2, 3, 4];
    FilledFive(prefix, user, pass, id);
    PrefixWords(prefix);
    MaskIsNoPrefix();
    var masked := Mask(segments, 2, 3);
    assert masked == ["", prefix, "***", "***", id];
    assert MaskFrom(masked, f, 2) == masked;
    assert MaskFrom(masked, f, 1) == MaskFrom(masked, f, 2);
    assert MaskFrom(segments, f, 0) == MaskFrom(masked, f, 1);
  }

  lemma FilledFive(prefix: string, user: string, pass: string, id: string)
    requires prefix != "" && user != "" && pass != "" && id != ""
    ensures Filled(["", prefix, user, pass, id]) == [1, 2, 3, 4]
  {
    var segments := ["", prefix, user, pass, id];
    assert FilledFrom(segments, 5) == [];
    assert FilledFrom(segments, 4) == [4];
    assert FilledFrom(segments, 3) == [3, 4];
    assert FilledFrom(segments, 2) == [2, 3, 4];
    assert FilledFrom(segments, 1) == [1, 2, 3, 4];
  }

  lemma JoinFive(prefix: string, user: string, pass: string, id: string)
    ensures Join(["", prefix, user, pass, id], '/') == "/" + prefix + "/" + user + "/" + pass + "/" + id
  {
    var tail := [user, pass, id];
    assert ["", prefix, user, pass, id] == [""] + ([prefix] + tail);
    JoinMore("", [prefix] + tail);
    JoinMore(prefix, tail);
    JoinThree(user, pass, id);
    var last := user + "/" + pass + "/" + id;
    assert "" + "/" + (prefix + "/" + last) == "/" + prefix + "/" + user + "/" + pass + "/" + id;
  }

  lemma JoinMore(head: string, rest: seq<string>)
    requires |rest| > 0
    ensures Join([head] + rest, '/') == head + "/" + Join(rest, '/')
  {
    assert ([head] + rest)[1..] == rest;
  }

  ghost predicate MaskedSoFar(original: seq<string>, segments: seq<string>) {
    |segments| == |original| && forall i :: 0 <= i < |segments| ==> segments[i] == original[i] || segments[i] == REDACTED
  }

  lemma StillMasked(original: seq<string>, segments: seq<string>, a: nat, b: nat)
    requires MaskedSoFar(original, segments) && a < |segments| && b < |segments|
    ensures MaskedSoFar(original, Mask(segments, a, b))
    ensures Mask(segments, a, b) == original ==> segments == original
  {
    var out := Mask(segments, a, b);
    if out == original {
      forall i | 0 <= i < |segments| ensures segments[i] == original[i] {
        assert out[i] == original[i];
      }
    }
  }

  /** Mask two segments, noting whether that changes anything. */
  method MaskPair(segments: seq<string>, pair: seq<nat>, changed: bool) returns (out: seq<string>, noted: bool)
    requires |pair| == 2 && pair[0] < |segments| && pair[1] < |segments|
    ensures out == Mask(segments, pair[0], pair[1]) && noted == (changed || out != segments)
  {
    out, noted := segments, changed;
    for k := 0 to 2
      invariant out == if k == 0 then segments else if k == 1 then segments[pair[0] := REDACTED] else Mask(segments, pair[0], pair[1])
      invariant noted == (changed || out != segments)
    {
      var j := pair[k];
      if out[j] != REDACTED {
        assert segments[j] == out[j];
        out := out[j := REDACTED];
        noted := true;
        assert out[j] != segments[j];
      } else {
        assert out[j := REDACTED] == out;
      }
    }
  }

  method MaskBehindPrefixes(original: seq<string>, filled: seq<nat>) returns (segments: seq<string>, changed: bool)
    requires Places(original, filled)
    ensures segments == MaskFrom(original, filled, 0) && changed == (segments != original)
  {
    segments, changed := original, false;
    for n := 0 to |filled|
      invariant MaskedSoFar(original, segments) && changed == (segments != original)
      invariant MaskFrom(segments, filled, n) == MaskFrom(original, filled, 0)
    {
      if IsPrefix(segments[filled[n]]) && n + 2 < |filled| {
        StillMasked(original, segments, filled[n + 1], filled[n + 2]);
        segments, changed := MaskPair(segments, [filled[n + 1], filled[n + 2]], changed);
      }
    }
  }

  /** With the early returns and the flag that spares an untouched path the rebuild. */
  method MaskPath(path: string) returns (r: string)
    ensures r == RedactPath(path)
  {
    JoinSplit(path, '/');
    if '/' !in path {
      NoSeparator(path, '/');
      return path;
    }
    var segments := Split(path, '/');
    var filled := Filled(segments);
    if filled == [] {
      return path;
    }
    var masked, changed := MaskBehindPrefixes(segments, filled);
    if !changed && BareRoute(masked, filled) {
      masked := Mask(masked, filled[0], filled[1]);
      changed := true;
    }
    SegmentsKeepTheirPlaces(segments);
    r := if changed then Join(masked, '/') else path;
  }

  /* The query: `sensitive` tells whether a parameter name, as written, is one to mask */

  /** The text before the first '='. */
  function Name(part: string): (name: string)
    ensures name <= part && '=' !in name && ('=' in part ==> |name| < |part| && part[|name|] == '=')
  {
    if part == "" || part[0] == '=' then "" else [part[0]] + Name(part[1..])
  }

  predicate HasValue(part: string) {
    '=' in part
  }

  function RedactPart(part: string, sensitive: string -> bool): string {
    if HasValue(part) && sensitive(Name(part)) then Name(part) + "=" + REDACTED else part
  }

  function RedactParts(parts: seq<string>, sensitive: string -> bool): seq<string> {
    seq(|parts|, i requires 0 <= i < |parts| => RedactPart(parts[i], sensitive))
  }

  function RedactQuery(query: string, sensitive: string -> bool): string {
    Join(RedactParts(Split(query, '&'), sensitive), '&')
  }

  lemma {:induction false} NameOf(name: string, value: string)
    requires '=' !in name
    ensures Name(name + "=" + value) == name
    decreases |name|
  {
    var part := name + "=" + value;
    if name != "" {
      assert part[0] == name[0] && part[1..] == name[1..] + "=" + value;
      NameOf(name[1..], value);
    }
  }

  lemma PartIdempotent(part: string, sensitive: string -> bool)
    ensures RedactPart(RedactPart(part, sensitive), sensitive) == RedactPart(part, sensitive)
    ensures HasValue(RedactPart(part, sensitive)) == HasValue(part) && Name(RedactPart(part, sensitive)) == Name(part)
  {
    if HasValue(part) && sensitive(Name(part)) {
      NameOf(Name(part), REDACTED);
      assert (Name(part) + "=" + REDACTED)[|Name(part)|] == '=';
    }
  }

  /** The parameters of the result are those of the query, one for one and in order, with the same names;
      the sensitive ones have the mask for their value and the others are untouched. */
  lemma QueryKeepsItsShape(query: string, sensitive: string -> bool)
    ensures var parts := Split(query, '&');
      var out := Split(RedactQuery(query, sensitive), '&');
      && |out| == |parts|
      && forall i :: 0 <= i < |parts| ==>
           && HasValue(out[i]) == HasValue(parts[i]) && Name(out[i]) == Name(parts[i])
           && out[i] == if HasValue(parts[i]) && sensitive(Name(parts[i])) then Name(parts[i]) + "=" + REDACTED else parts[i]
  {
    var parts := Split(query, '&');
    SplitRedacted(query, sensitive);
    forall i | 0 <= i < |parts|
      ensures HasValue(RedactPart(parts[i], sensitive)) == HasValue(parts[i]) && Name(RedactPart(parts[i], sensitive)) == Name(parts[i])
    {
      PartIdempotent(parts[i], sensitive);
    }
  }

  lemma SplitRedacted(query: string, sensitive: string -> bool)
    ensures Split(RedactQuery(query, sensitive), '&') == RedactParts(Split(query, '&'), sensitive)
  {
    var parts := Split(query, '&');
    var out := RedactParts(parts, sensitive);
    forall i | 0 <= i < |out| ensures Free(out[i], '&') {
      assert Free(parts[i], '&');
      assert Name(parts[i]) <= parts[i];
    }
    SplitJoin(out, '&');
  }

  lemma QueryIdempotent(query: string, sensitive: string -> bool)
    ensures RedactQuery(RedactQuery(query, sensitive), sensitive) == RedactQuery(query, sensitive)
  {
    var parts := Split(query, '&');
    var out := RedactParts(parts, sensitive);
    SplitRedacted(query, sensitive);
    forall i | 0 <= i < |out| ensures RedactPart(out[i], sensitive) == out[i] {
      PartIdempotent(parts[i], sensitive);
    }
    assert RedactParts(out, sensitive) == out;
  }

  /** Every sensitive parameter already shows the mask. */
  ghost predicate Masked(query: string, sensitive: string -> bool) {
    forall part :: part in Split(query, '&') ==> PartMasked(part, sensitive)
  }

  predicate PartMasked(part: string, sensitive: string -> bool) {
    HasValue(part) && sensitive(Name(part)) ==> part[|Name(part)|..] == "=" + REDACTED
  }

  lemma PartIdentityIffMasked(part: string, sensitive: string -> bool)
    ensures RedactPart(part, sensitive) == part <==> PartMasked(part, sensitive)
  {
    var name := Name(part);
    assert part == name + part[|name|..];
    assert name + "=" + REDACTED == name + ("=" + REDACTED);
    assert (name + ("=" + REDACTED))[|name|..] == "=" + REDACTED;
  }

  lemma QueryIdentityIffMasked(query: string, sensitive: string -> bool)
    ensures RedactQuery(query, sensitive) == query <==> Masked(query, sensitive)
  {
    var parts := Split(query, '&');
    var out := RedactParts(parts, sensitive);
    SplitRedacted(query, sensitive);
    JoinSplit(query, '&');
    forall i | 0 <= i < |parts| ensures out[i] == parts[i] <==> PartMasked(parts[i], sensitive) {
      PartIdentityIffMasked(parts[i], sensitive);
    }
    if Masked(query, sensitive) {
      forall i | 0 <= i < |parts| ensures out[i] == parts[i] {
        assert parts[i] in parts;
      }
      assert out == parts;
    }
    if RedactQuery(query, sensitive) == query {
      assert out == parts;
      forall part | part in parts ensures PartMasked(part, sensitive) {
      }
    }
  }

  const SENSITIVE_QUERY_KEYS := {"password", "username", "token", "api_key"}

  /** The names to mask, as written or as percent-decoded and stripped. */
  function Sensitive(decoded: string -> string): string -> bool {
    (name: string) => Lower(name) in SENSITIVE_QUERY_KEYS || Lower(decoded(name)) in SENSITIVE_QUERY_KEYS
  }

  predicate SpellsCredential(s: string) {
    Spells(s, "password") || Spells(s, "username") || Spells(s, "token") || Spells(s, "api_key")
  }

  lemma CredentialNames(s: string)
    ensures Lower(s) in SENSITIVE_QUERY_KEYS <==> SpellsCredential(s)
  {
    LowerSpells(s, "password");
    LowerSpells(s, "username");
    LowerSpells(s, "token");
    LowerSpells(s, "api_key");
  }

  /** Whatever the decoding does: a parameter shows the mask behind its name if the name, before or after
      decoding, is one of the four in any letter case, and otherwise stays as it is. */
  lemma CredentialParametersAreMasked(query: string, decoded: string -> string, i: nat)
    requires i < |Split(query, '&')|
    ensures var part, out := Split(query, '&')[i], Split(RedactQuery(query, Sensitive(decoded)), '&');
      |out| == |Split(query, '&')| &&
      out[i] == if '=' in part && (SpellsCredential(Name(part)) || SpellsCredential(decoded(Name(part)))) then Name(part) + "=***" else part
  {
    QueryKeepsItsShape(query, Sensitive(decoded));
    SensitiveExactly(decoded, Name(Split(query, '&')[i]));
    MaskedPart(Name(Split(query, '&')[i]));
  }

  lemma SensitiveExactly(decoded: string -> string, name: string)
    ensures Sensitive(decoded)(name) <==> SpellsCredential(name) || SpellsCredential(decoded(name))
  {
    CredentialNames(name);
    CredentialNames(decoded(name));
  }

  lemma MaskedPart(name: string)
    ensures name + "=" + REDACTED == name + "=***"
  {
  }

  lemma TurnOfQuery(original: seq<string>, i: nat, sensitive: string -> bool)
    requires i < |original|
    ensures var before := RedactParts(original[..i], sensitive) + original[i..];
      |before| == |original| && before[i] == original[i] &&
      before[i := RedactPart(original[i], sensitive)] == RedactParts(original[..i + 1], sensitive) + original[i + 1..]
  {
  }

  method MaskParts(original: seq<string>, sensitive: string -> bool) returns (parts: seq<string>, changed: bool)
    ensures parts == RedactParts(original, sensitive) && (!changed ==> parts == original)
  {
    parts, changed := original, false;
    for i := 0 to |parts|
      invariant parts == RedactParts(original[..i], sensitive) + original[i..]
      invariant !changed ==> parts == original
    {
      TurnOfQuery(original, i, sensitive);
      assert parts[i] == original[i];
      if HasValue(parts[i]) && sensitive(Name(parts[i])) {
        parts := parts[i := Name(parts[i]) + "=" + REDACTED];
        changed := true;
      } else {
        assert parts[i := RedactPart(original[i], sensitive)] == parts;
      }
    }
    assert original[..|original|] == original && original[|original|..] == [];
  }

  /** With the early return and the flag that spares an untouched query the rebuild. */
  method MaskQuery(query: string, sensitive: string -> bool) returns (r: string)
    ensures r == RedactQuery(query, sensitive)
  {
    JoinSplit(query, '&');
    if query == "" {
      assert RedactParts([""], sensitive) == [""];
      return query;
    }
    var parts, changed := MaskParts(Split(query, '&'), sensitive);
    r := if changed then Join(parts, '&') else query;
  }

  /* The whole URL */

  datatype Url = Url(scheme: string, netloc: string, path: string, query: string, fragment: string)

  function Redacted(u: Url, sensitive: string -> bool): Url {
    Url(u.scheme, RedactNetloc(u.netloc), RedactPath(u.path), RedactQuery(u.query, sensitive),
        if '=' in u.fragment then RedactQuery(u.fragment, sensitive) else u.fragment)
  }

  /** The input itself when nothing was masked. */
  datatype Shown = AsGiven | Rebuilt(url: Url)

  method RedactUrl(u: Url, sensitive: string -> bool) returns (shown: Shown)
    ensures shown.AsGiven? <==> Redacted(u, sensitive) == u
    ensures shown.Rebuilt? ==> shown.url == Redacted(u, sensitive)
  {
    var netloc := RedactNetloc(u.netloc);
    var path := MaskPath(u.path);
    var query := MaskQuery(u.query, sensitive);
    var fragment := u.fragment;
    if '=' in u.fragment {
      fragment := MaskQuery(u.fragment, sensitive);
    }
    if netloc == u.netloc && path == u.path && query == u.query && fragment == u.fragment {
      return AsGiven;
    }
    shown := Rebuilt(Url(u.scheme, netloc, path, query, fragment));
  }

  /** Only a name followed by '=' can be masked, so the guard on the fragment decides nothing by itself. */
  lemma FragmentGuard(fragment: string, sensitive: string -> bool)
    requires '=' !in fragment
    ensures RedactQuery(fragment, sensitive) == fragment
  {
    JoinSplit(fragment, '&');
    var parts := Split(fragment, '&');
    forall part | part in parts ensures !HasValue(part) {
      if HasValue(part) {
        PartOfJoin(parts, part);
      }
    }
    QueryIdentityIffMasked(fragment, sensitive);
  }

  lemma {:induction false} PartOfJoin(parts: seq<string>, part: string)
    requires part in parts && '=' in part
    ensures '=' in Join(parts, '&')
    decreases |parts|
  {
    if parts[0] != part {
      PartOfJoin(parts[1..], part);
    }
  }

  lemma UrlIdempotent(u: Url, sensitive: string -> bool)
    ensures Redacted(Redacted(u, sensitive), sensitive) == Redacted(u, sensitive)
  {
    NetlocIdempotent(u.netloc);
    PathIdempotent(u.path);
    QueryIdempotent(u.query, sensitive);
    QueryIdempotent(u.fragment, sensitive);
  }

  lemma UrlUnchangedIffClean(u: Url, sensitive: string -> bool)
    ensures Redacted(u, sensitive) == u <==>
      && ('@' in u.netloc ==> u.netloc == REDACTED + "@" + Host(u.netloc))
      && Untouched(Split(u.path, '/'))
      && Masked(u.query, sensitive) && Masked(u.fragment, sensitive)
  {
    PathIdentityIffUntouched(u.path);
    QueryIdentityIffMasked(u.query, sensitive);
    QueryIdentityIffMasked(u.fragment, sensitive);
    if '=' !in u.fragment {
      FragmentGuard(u.fragment, sensitive);
    }
  }
}
