/** The order in which channels are packed: natural keys, compared as Python compares lists. */
module NaturalSort {
  import opened Options

  /** A piece of a natural sort key. */
  datatype Chunk = Text(text: string) | Number(value: nat)

  predicate IsDigit(c: char) {
    '0' <= c <= '9'
  }

  function Lower(c: char): char {
    if 'A' <= c <= 'Z' then ((c as int) + 32) as char else c
  }

  function LowerAll(s: string): string {
    seq(|s|, i requires 0 <= i < |s| => Lower(s[i]))
  }

  /** The length of the longest prefix whose characters are all digits, or all not. */
  function Run(s: string, digits: bool): (n: nat)
    ensures n <= |s| && forall i :: 0 <= i < n ==> IsDigit(s[i]) == digits
    ensures n < |s| ==> IsDigit(s[n]) != digits
  {
    if s == "" || IsDigit(s[0]) != digits then 0 else 1 + Run(s[1..], digits)
  }

  function DigitsValue(s: string): nat
    requires forall i :: 0 <= i < |s| ==> IsDigit(s[i])
  {
    if s == "" then 0
    else
      assert IsDigit(s[|s| - 1]);
      DigitsValue(s[..|s| - 1]) * 10 + (s[|s| - 1] as int - '0' as int)
  }

  /** Splits at the runs of digits and keeps them: text, number, text, …, text. */
  function NaturalKey(s: string): seq<Chunk>
    decreases |s|
  {
    var n := Run(s, false);
    if n == |s| then
      [Text(LowerAll(s))]
    else
      var m := Run(s[n..], true);
      [Text(LowerAll(s[..n])), Number(DigitsValue(s[n..][..m]))] + NaturalKey(s[n..][m..])
  }

  /** Text at even places, numbers at odd ones. */
  ghost predicate Alternates(key: seq<Chunk>) {
    forall i :: 0 <= i < |key| ==> (key[i].Text? <==> i % 2 == 0)
  }

  /* Names of any characters */

  /** What Python knows of characters: str.isdigit, the digits that int() reads, the number it reads, and
      str.lower.  Superscripts, for one, are digits that int() does not read. */
  datatype Characters = Characters(digit: char -> bool, decimal: char -> bool, value: string -> nat, lower: string -> string)

  predicate Ascii(s: string) {
    forall i :: 0 <= i < |s| ==> s[i] < 128 as char
  }

  ghost predicate Faithful(u: Characters) {
    && (forall c :: IsDigit(c) ==> u.decimal(c))
    && (forall c :: u.decimal(c) ==> u.digit(c))
    && (forall c :: c < 128 as char && u.digit(c) ==> IsDigit(c))
    && (forall s :: s != "" && Digits(s) ==> u.value(s) == DigitsValue(s))
    && (forall s :: Ascii(s) ==> u.lower(s) == LowerAll(s))
  }

  predicate Digits(s: string) {
    forall i :: 0 <= i < |s| ==> IsDigit(s[i])
  }

  /** The split at the runs of ASCII digits, kept: what re.split returns. */
  function Pieces(s: string): (pieces: seq<string>)
    ensures |pieces| % 2 == 1
    decreases |s|
  {
    var n := Run(s, false);
    if n == |s| then [s]
    else
      var tail := s[n..];
      var m := Run(tail, true);
      assert IsDigit(tail[0]) && m > 0;
      [s[..n], tail[..m]] + Pieces(tail[m..])
  }

  predicate DigitsOnly(u: Characters, piece: string) {
    piece != "" && forall i :: 0 <= i < |piece| ==> u.digit(piece[i])
  }

  predicate Readable(u: Characters, piece: string) {
    forall i :: 0 <= i < |piece| ==> u.decimal(piece[i])
  }

  /** None where int() raises. */
  function Convert(u: Characters, piece: string): Option<Chunk> {
    if !DigitsOnly(u, piece) then Some(Text(u.lower(piece)))
    else if Readable(u, piece) then Some(Number(u.value(piece)))
    else None
  }

  predicate Raises(u: Characters, s: string) {
    exists i :: 0 <= i < |Pieces(s)| && Convert(u, Pieces(s)[i]).None?
  }

  function KeyOf(u: Characters, s: string): (key: seq<Chunk>)
    requires !Raises(u, s)
    ensures |key| == |Pieces(s)|
  {
    seq(|Pieces(s)|, i requires 0 <= i < |Pieces(s)| => Convert(u, Pieces(s)[i]).value)
  }

  /** No piece between the runs of ASCII digits is made of digits only. */
  predicate Plain(u: Characters, s: string) {
    forall i :: 0 <= i < |Pieces(s)| && i % 2 == 0 ==> !DigitsOnly(u, Pieces(s)[i])
  }

  /** A name that is not all text: the text before its first number, the number, and the rest. */
  function Parts(s: string): (string, string, string) {
    var n := Run(s, false);
    var m := Run(s[n..], true);
    (s[..n], s[n..][..m], s[n..][m..])
  }

  lemma PartsOf(s: string)
    requires Run(s, false) < |s|
    ensures TextOnly(Parts(s).0) && Parts(s).1 != "" && Digits(Parts(s).1) && |Parts(s).2| < |s|
  {
    TextPart(s);
    DigitsPart(s);
  }

  lemma TextPart(s: string)
    ensures TextOnly(Parts(s).0)
  {
  }

  lemma DigitsPart(s: string)
    requires Run(s, false) < |s|
    ensures Parts(s).1 != "" && Digits(Parts(s).1)
  {
    var tail := s[Run(s, false)..];
    assert IsDigit(tail[0]);
    assert Run(tail, true) > 0;
  }

  lemma PiecesOfParts(s: string)
    requires Run(s, false) < |s|
    ensures Pieces(s) == [Parts(s).0, Parts(s).1] + Pieces(Parts(s).2)
  {
  }

  lemma KeyOfParts(s: string)
    requires Run(s, false) < |s|
    ensures NaturalKey(s) == [Text(LowerAll(Parts(s).0)), Number(DigitsValue(Parts(s).1))] + NaturalKey(Parts(s).2)
  {
  }

  predicate TextOnly(s: string) {
    forall i :: 0 <= i < |s| ==> !IsDigit(s[i])
  }

  lemma AsciiParts(s: string)
    requires Ascii(s)
    ensures Ascii(Parts(s).0) && Ascii(Parts(s).2)
  {
    var n := Run(s, false);
    var m := Run(s[n..], true);
    assert s[n..][m..] == s[n + m..];
    AsciiSlice(s, 0, n);
    AsciiSlice(s, n + m, |s|);
  }

  lemma AsciiSlice(s: string, i: nat, j: nat)
    requires Ascii(s) && i <= j <= |s|
    ensures Ascii(s[i..j])
  {
  }

  /** The pieces alternate between text and numbers, and the key is made of them. */
  ghost predicate Fits(pieces: seq<string>, key: seq<Chunk>) {
    |pieces| == |key| && forall i :: 0 <= i < |key| ==> FitsAt(pieces[i], key[i], i)
  }

  ghost predicate FitsAt(piece: string, chunk: Chunk, i: nat) {
    if i % 2 == 0 then TextOnly(piece) && chunk == Text(LowerAll(piece))
    else piece != "" && Digits(piece) && chunk == Number(DigitsValue(piece))
  }

  lemma FitsPrepend(text: string, digits: string, pieces: seq<string>, key: seq<Chunk>)
    requires TextOnly(text) && digits != "" && Digits(digits) && Fits(pieces, key)
    ensures Fits([text, digits] + pieces, [Text(LowerAll(text)), Number(DigitsValue(digits))] + key)
  {
    var pieces', key' := [text, digits] + pieces, [Text(LowerAll(text)), Number(DigitsValue(digits))] + key;
    forall i | 0 <= i < |key'| ensures FitsAt(pieces'[i], key'[i], i) {
      if i >= 2 {
        assert pieces'[i] == pieces[i - 2] && key'[i] == key[i - 2];
        assert FitsAt(pieces[i - 2], key[i - 2], i - 2);
      }
    }
  }

  lemma {:induction false} PiecesFit(s: string)
    ensures Fits(Pieces(s), NaturalKey(s))
    decreases |s|
  {
    if Run(s, false) < |s| {
      PartsOf(s);
      PiecesOfParts(s);
      KeyOfParts(s);
      PiecesFit(Parts(s).2);
      FitsPrepend(Parts(s).0, Parts(s).1, Pieces(Parts(s).2), NaturalKey(Parts(s).2));
    } else {
      AllText(s);
    }
  }

  lemma AllText(s: string)
    requires Run(s, false) == |s|
    ensures Fits(Pieces(s), NaturalKey(s))
  {
    OnePiece(s);
    OneChunk(s);
    assert FitsAt(s, Text(LowerAll(s)), 0);
  }

  lemma OnePiece(s: string)
    requires Run(s, false) == |s|
    ensures Pieces(s) == [s] && TextOnly(s)
  {
  }

  lemma OneChunk(s: string)
    requires Run(s, false) == |s|
    ensures NaturalKey(s) == [Text(LowerAll(s))]
  {
  }

  lemma KeyAlternates(s: string)
    ensures Alternates(NaturalKey(s))
  {
    PiecesFit(s);
    forall i | 0 <= i < |NaturalKey(s)| ensures NaturalKey(s)[i].Text? <==> i % 2 == 0 {
      assert FitsAt(Pieces(s)[i], NaturalKey(s)[i], i);
    }
  }

  lemma DigitPieceConverts(u: Characters, s: string, i: nat)
    requires Faithful(u) && i < |Pieces(s)| && i % 2 == 1
    ensures Convert(u, Pieces(s)[i]).Some? && Convert(u, Pieces(s)[i]).value.Number?
  {
    PiecesFit(s);
    assert FitsAt(Pieces(s)[i], NaturalKey(s)[i], i);
  }

  /** Digits only, and among them one that int() cannot read. */
  predicate HasUnreadable(u: Characters, piece: string) {
    (forall j :: 0 <= j < |piece| ==> u.digit(piece[j])) && exists j :: 0 <= j < |piece| && !u.decimal(piece[j])
  }

  /** Making the key raises exactly when some piece between runs of ASCII digits is made of digits only and
      int() cannot read it. */
  lemma RaisesExactly(u: Characters, s: string)
    requires Faithful(u)
    ensures Raises(u, s) <==>
      exists i :: 0 <= i < |Pieces(s)| && i % 2 == 0 && HasUnreadable(u, Pieces(s)[i])
  {
    if Raises(u, s) {
      var i :| 0 <= i < |Pieces(s)| && Convert(u, Pieces(s)[i]).None?;
      if i % 2 == 1 {
        DigitPieceConverts(u, s, i);
      }
    }
    if i :| 0 <= i < |Pieces(s)| && i % 2 == 0 && HasUnreadable(u, Pieces(s)[i]) {
      assert Convert(u, Pieces(s)[i]).None?;
    }
  }

  /** A key is made, and has text at even places and numbers at odd ones, exactly for plain names. */
  lemma AlternatesExactly(u: Characters, s: string)
    requires Faithful(u)
    ensures !Raises(u, s) && Alternates(KeyOf(u, s)) <==> Plain(u, s)
  {
    RaisesExactly(u, s);
    if !Raises(u, s) {
      forall i | 0 <= i < |Pieces(s)| && i % 2 == 1 ensures KeyOf(u, s)[i].Number? {
        DigitPieceConverts(u, s, i);
      }
      forall i | 0 <= i < |Pieces(s)| && i % 2 == 0 ensures KeyOf(u, s)[i].Text? <==> !DigitsOnly(u, Pieces(s)[i]) {
        assert Convert(u, Pieces(s)[i]).Some?;
      }
      if Alternates(KeyOf(u, s)) {
        forall i | 0 <= i < |Pieces(s)| && i % 2 == 0 ensures !DigitsOnly(u, Pieces(s)[i]) {
          assert KeyOf(u, s)[i].Text?;
        }
      }
    }
  }

  /** Keys of plain names have chunks of one kind at each place, so Python can make and compare them. */
  lemma KeysComparable(u: Characters, s: string, t: string, i: nat)
    requires Faithful(u) && Plain(u, s) && Plain(u, t)
    ensures !Raises(u, s) && !Raises(u, t)
    ensures i < |KeyOf(u, s)| && i < |KeyOf(u, t)| ==> (KeyOf(u, s)[i].Text? <==> KeyOf(u, t)[i].Text?)
  {
    AlternatesExactly(u, s);
    AlternatesExactly(u, t);
  }

  ghost predicate AllAscii(pieces: seq<string>) {
    forall i :: 0 <= i < |pieces| ==> Ascii(pieces[i])
  }

  lemma {:induction false} AsciiPieces(s: string)
    requires Ascii(s)
    ensures AllAscii(Pieces(s))
    decreases |s|
  {
    if Run(s, false) < |s| {
      PartsOf(s);
      PiecesOfParts(s);
      AsciiParts(s);
      AsciiPieces(Parts(s).2);
      AsciiPrepend(Parts(s).0, Parts(s).1, Pieces(Parts(s).2));
    } else {
      assert Pieces(s) == [s];
    }
  }

  lemma AsciiPrepend(text: string, digits: string, pieces: seq<string>)
    requires Ascii(text) && Digits(digits) && AllAscii(pieces)
    ensures AllAscii([text, digits] + pieces)
  {
  }

  /** ASCII names are plain, and their keys are the natural ones. */
  lemma AsciiKeys(u: Characters, s: string)
    requires Faithful(u) && Ascii(s)
    ensures Plain(u, s) && !Raises(u, s) && KeyOf(u, s) == NaturalKey(s)
  {
    PiecesFit(s);
    AsciiPieces(s);
    forall i | 0 <= i < |Pieces(s)| && i % 2 == 0 ensures !DigitsOnly(u, Pieces(s)[i]) {
      assert FitsAt(Pieces(s)[i], NaturalKey(s)[i], i);
      assert Pieces(s)[i] != "" ==> !u.digit(Pieces(s)[i][0]);
    }
    AlternatesExactly(u, s);
    forall i | 0 <= i < |Pieces(s)| ensures KeyOf(u, s)[i] == NaturalKey(s)[i] {
      assert FitsAt(Pieces(s)[i], NaturalKey(s)[i], i);
      assert i % 2 == 1 ==> DigitsOnly(u, Pieces(s)[i]) && Readable(u, Pieces(s)[i]);
    }
  }

  /* Lexicographic order of sequences */

  predicate LexLess<T(==)>(less: (T, T) -> bool, a: seq<T>, b: seq<T>) {
    if b == [] then false
    else if a == [] then true
    else if a[0] == b[0] then LexLess(less, a[1..], b[1..])
    else less(a[0], b[0])
  }

  ghost predicate StrictTotal<T(!new)>(less: (T, T) -> bool) {
    && (forall x, y :: less(x, y) ==> x != y && !less(y, x))
    && (forall x, y, z :: less(x, y) && less(y, z) ==> less(x, z))
    && (forall x, y :: x != y ==> less(x, y) || less(y, x))
  }

  lemma {:induction false} LexTransitive<T(!new)>(less: (T, T) -> bool, a: seq<T>, b: seq<T>, c: seq<T>)
    requires StrictTotal(less) && LexLess(less, a, b) && LexLess(less, b, c)
    ensures LexLess(less, a, c)
  {
    if a != [] && a[0] == b[0] == c[0] {
      LexTransitive(less, a[1..], b[1..], c[1..]);
    }
  }

  lemma {:induction false} LexConnected<T(!new)>(less: (T, T) -> bool, a: seq<T>, b: seq<T>)
    requires StrictTotal(less)
    ensures LexLess(less, a, b) || LexLess(less, b, a) || a == b
    ensures !(LexLess(less, a, b) && (LexLess(less, b, a) || a == b))
  {
    if a != [] && b != [] && a[0] == b[0] {
      LexConnected(less, a[1..], b[1..]);
      assert a == [a[0]] + a[1..] && b == [b[0]] + b[1..];
    }
  }

  predicate CharLess(a: char, b: char) {
    a < b
  }

  /** Text is compared character by character: by the first place where two texts differ, or by length when
      one begins the other. */
  lemma {:induction false} TextOrder(s: string, t: string)
    ensures LexLess(CharLess, s, t) <==>
      exists i :: 0 <= i <= |s| && i < |t| && s[..i] == t[..i] && (i < |s| ==> s[i] < t[i])
    decreases |s|
  {
    if s != [] && t != [] && s[0] == t[0] {
      TextOrder(s[1..], t[1..]);
      if i :| 0 <= i <= |s[1..]| && i < |t[1..]| && s[1..][..i] == t[1..][..i] && (i < |s[1..]| ==> s[1..][i] < t[1..][i]) {
        assert s[..i + 1] == [s[0]] + s[1..][..i] && t[..i + 1] == [t[0]] + t[1..][..i];
      }
      if i :| 0 <= i <= |s| && i < |t| && s[..i] == t[..i] && (i < |s| ==> s[i] < t[i]) {
        assert i > 0;
        assert s[1..][..i - 1] == s[..i][1..] && t[1..][..i - 1] == t[..i][1..];
      }
    } else if s != [] && t != [] {
      assert forall i :: 0 < i <= |s| && i < |t| ==> s[..i][0] == s[0] && t[..i][0] == t[0];
      assert s[..0] == t[..0];
    } else if t != [] {
      assert s[..0] == t[..0];
    }
  }

  /** Text against number never happens at the same place of two natural keys. */
  predicate ChunkLess(a: Chunk, b: Chunk) {
    match (a, b)
    case (Text(s), Text(t)) => LexLess(CharLess, s, t)
    case (Number(m), Number(n)) => m < n
    case (Number(_), Text(_)) => true
    case (Text(_), Number(_)) => false
  }

  predicate KeyLess(a: seq<Chunk>, b: seq<Chunk>) {
    LexLess(ChunkLess, a, b)
  }

  lemma ChunkLessIsStrictTotal()
    ensures StrictTotal(ChunkLess)
  {
    forall x, y
      ensures ChunkLess(x, y) ==> x != y && !ChunkLess(y, x)
      ensures x != y ==> ChunkLess(x, y) || ChunkLess(y, x)
    {
      if x.Text? && y.Text? {
        LexConnected(CharLess, x.text, y.text);
      }
    }
    forall x, y, z | ChunkLess(x, y) && ChunkLess(y, z)
      ensures ChunkLess(x, z)
    {
      if x.Text? && y.Text? && z.Text? {
        LexTransitive(CharLess, x.text, y.text, z.text);
      }
    }
  }

  lemma KeyLessIsStrictTotal(a: seq<Chunk>, b: seq<Chunk>, c: seq<Chunk>)
    ensures KeyLess(a, b) || KeyLess(b, a) || a == b
    ensures !(KeyLess(a, b) && (KeyLess(b, a) || a == b))
    ensures KeyLess(a, b) && KeyLess(b, c) ==> KeyLess(a, c)
  {
    ChunkLessIsStrictTotal();
    LexConnected(ChunkLess, a, b);
    if KeyLess(a, b) && KeyLess(b, c) {
      LexTransitive(ChunkLess, a, b, c);
    }
  }

  /* What the key is for */

  /** Where the digits of a name start and end, the key is cut as well. */
  predicate CutsAt(p: string, d: string, q: string) {
    (p == "" || !IsDigit(p[|p| - 1])) && d != "" && Digits(d) && (q == "" || !IsDigit(q[0]))
  }

  lemma RunIs(head: string, rest: string, digits: bool)
    requires forall i :: 0 <= i < |head| ==> IsDigit(head[i]) == digits
    requires rest == "" || IsDigit(rest[0]) != digits
    ensures Run(head + rest, digits) == |head|
  {
    var s, n := head + rest, Run(head + rest, digits);
    assert forall i :: 0 <= i < |head| ==> s[i] == head[i];
    if |head| < |s| {
      assert s[|head|] == rest[0];
    }
  }

  lemma SlicesOf(a: string, b: string, c: string)
    ensures var s := a + b + c;
      s == a + (b + c) && s[..|a|] == a && s[|a|..] == b + c && (b + c)[..|b|] == b && (b + c)[|b|..] == c
  {
  }

  lemma KeyOfSplit(s: string, a: string, b: string, c: string)
    requires s == a + b + c && TextOnly(a) && b != "" && Digits(b) && (c == "" || !IsDigit(c[0]))
    ensures NaturalKey(s) == [Text(LowerAll(a)), Number(DigitsValue(b))] + NaturalKey(c)
  {
    SlicesOf(a, b, c);
    assert (b + c)[0] == b[0];
    RunIs(a, b + c, false);
    RunIs(b, c, true);
  }

  lemma PartsJoin(p: string)
    ensures p == Parts(p).0 + Parts(p).1 + Parts(p).2
  {
    JoinedAt(p, Run(p, false), Run(p[Run(p, false)..], true));
  }

  lemma JoinedAt(s: string, n: nat, m: nat)
    requires n <= |s| && m <= |s| - n
    ensures s == s[..n] + s[n..][..m] + s[n..][m..]
  {
    assert s == s[..n] + s[n..];
  }

  lemma RestIsText(p: string)
    ensures Parts(p).2 == "" || !IsDigit(Parts(p).2[0])
  {
    var tail := p[Run(p, false)..];
    var m := Run(tail, true);
    assert m < |tail| ==> tail[m..][0] == tail[m];
  }

  lemma LastOf(a: string, b: string, c: string)
    requires b != ""
    ensures (a + b + c)[|a + b + c| - 1] == if c == "" then b[|b| - 1] else c[|c| - 1]
  {
  }

  /** A name whose last character is text goes on after its first number. */
  lemma RestAfterNumber(p: string)
    requires Run(p, false) < |p| && !IsDigit(p[|p| - 1])
    ensures Parts(p).2 != "" && !IsDigit(Parts(p).2[0]) && !IsDigit(Parts(p).2[|Parts(p).2| - 1])
  {
    PartsOf(p);
    PartsJoin(p);
    LastOf(Parts(p).0, Parts(p).1, Parts(p).2);
    RestIsText(p);
  }

  lemma FirstNumberCuts(p: string, tail: string)
    requires Run(p, false) < |p| && !IsDigit(p[|p| - 1])
    ensures NaturalKey(p + tail) == [Text(LowerAll(Parts(p).0)), Number(DigitsValue(Parts(p).1))] + NaturalKey(Parts(p).2 + tail)
  {
    PartsOf(p);
    PartsJoin(p);
    RestAfterNumber(p);
    var c := Parts(p).2 + tail;
    assert p + tail == Parts(p).0 + Parts(p).1 + c;
    KeyOfSplit(p + tail, Parts(p).0, Parts(p).1, c);
  }

  predicate Cuts(p: string, d: string, q: string)
    requires Digits(d)
  {
    NaturalKey(p + d + q) == NaturalKey(p) + [Number(DigitsValue(d))] + NaturalKey(q)
  }

  lemma TextCuts(p: string, d: string, q: string)
    requires CutsAt(p, d, q) && Run(p, false) == |p|
    ensures Cuts(p, d, q)
  {
    OnePiece(p);
    KeyOfSplit(p + d + q, p, d, q);
    OneChunk(p);
    Regrouped([Text(LowerAll(p))], [Number(DigitsValue(d))], NaturalKey(q));
    TwoChunks(Text(LowerAll(p)), Number(DigitsValue(d)));
  }

  lemma TwoChunks(x: Chunk, y: Chunk)
    ensures [x, y] == [x] + [y]
  {
  }

  lemma LaterCuts(p: string, d: string, q: string)
    requires CutsAt(p, d, q) && Run(p, false) < |p| && Cuts(Parts(p).2, d, q)
    ensures Cuts(p, d, q)
  {
    FirstOfWhole(p, d, q);
    KeyOfParts(p);
    Prepended([Text(LowerAll(Parts(p).0)), Number(DigitsValue(Parts(p).1))], NaturalKey(Parts(p).2), [Number(DigitsValue(d))], NaturalKey(q));
  }

  lemma FirstOfWhole(p: string, d: string, q: string)
    requires Run(p, false) < |p| && !IsDigit(p[|p| - 1])
    ensures NaturalKey(p + d + q) == [Text(LowerAll(Parts(p).0)), Number(DigitsValue(Parts(p).1))] + NaturalKey(Parts(p).2 + d + q)
  {
    Regrouped(p, d, q);
    Regrouped(Parts(p).2, d, q);
    FirstNumberCuts(p, d + q);
  }

  /** The key of a name is the key of what stands before one of its numbers, the number, and the key of the rest. */
  lemma {:induction false} KeyCuts(p: string, d: string, q: string)
    requires CutsAt(p, d, q)
    ensures Cuts(p, d, q)
    decreases |p|
  {
    if Run(p, false) == |p| {
      TextCuts(p, d, q);
    } else {
      PartsOf(p);
      RestAfterNumber(p);
      KeyCuts(Parts(p).2, d, q);
      LaterCuts(p, d, q);
    }
  }

  lemma Regrouped<T>(p: seq<T>, d: seq<T>, q: seq<T>)
    ensures p + d + q == p + (d + q)
  {
  }

  lemma Prepended<T>(x: seq<T>, p: seq<T>, d: seq<T>, q: seq<T>)
    ensures x + (p + d + q) == x + p + d + q
  {
  }

  lemma {:induction false} LexBehind<T>(less: (T, T) -> bool, p: seq<T>, a: seq<T>, b: seq<T>)
    ensures LexLess(less, p + a, p + b) == LexLess(less, a, b)
  {
    if p == [] {
      assert p + a == a && p + b == b;
    } else {
      assert (p + a)[1..] == p[1..] + a && (p + b)[1..] == p[1..] + b;
      LexBehind(less, p[1..], a, b);
    }
  }

  /** Names that agree up to a number are sorted by that number, whatever follows it. */
  lemma NumbersDecide(p: string, d: string, q: string, e: string, r: string)
    requires CutsAt(p, d, q) && CutsAt(p, e, r) && DigitsValue(d) != DigitsValue(e)
    ensures KeyLess(NaturalKey(p + d + q), NaturalKey(p + e + r)) <==> DigitsValue(d) < DigitsValue(e)
  {
    KeyCuts(p, d, q);
    KeyCuts(p, e, r);
    var m, n := DigitsValue(d), DigitsValue(e);
    FirstDecides(NaturalKey(p), m, NaturalKey(q), n, NaturalKey(r));
  }

  lemma FirstDecides(before: seq<Chunk>, m: nat, x: seq<Chunk>, n: nat, y: seq<Chunk>)
    requires m != n
    ensures KeyLess(before + [Number(m)] + x, before + [Number(n)] + y) <==> m < n
  {
    assert before + [Number(m)] + x == before + ([Number(m)] + x);
    assert before + [Number(n)] + y == before + ([Number(n)] + y);
    LexBehind(ChunkLess, before, [Number(m)] + x, [Number(n)] + y);
  }

  ghost predicate EndsRight(s: string, key: seq<Chunk>) {
    key != [] && (key[|key| - 1] == Text("") <==> s == "" || IsDigit(s[|s| - 1]))
  }

  lemma EndsLater(a: string, b: string, c: string, first: seq<Chunk>, key: seq<Chunk>)
    requires b != "" && Digits(b) && EndsRight(c, key)
    ensures EndsRight(a + b + c, first + key)
  {
    LastOf(a, b, c);
    assert (first + key)[|first + key| - 1] == key[|key| - 1];
  }

  /** The last chunk is an empty text exactly for the empty name and for names that end in a digit. */
  lemma {:induction false} KeyEnds(s: string)
    ensures EndsRight(s, NaturalKey(s))
    decreases |s|
  {
    if Run(s, false) < |s| {
      PartsOf(s);
      PartsJoin(s);
      KeyOfParts(s);
      KeyEnds(Parts(s).2);
      EndsLater(Parts(s).0, Parts(s).1, Parts(s).2, [Text(LowerAll(Parts(s).0)), Number(DigitsValue(Parts(s).1))], NaturalKey(Parts(s).2));
    } else {
      TextEnds(s);
    }
  }

  lemma TextEnds(s: string)
    requires Run(s, false) == |s|
    ensures EndsRight(s, NaturalKey(s))
  {
    OnePiece(s);
    OneChunk(s);
    assert s == "" ==> LowerAll(s) == "";
    assert s != "" ==> |LowerAll(s)| == |s| && !IsDigit(s[|s| - 1]);
  }

  lemma PpvTen()
    ensures NaturalKey("PPV 10") == [Text("ppv "), Number(10), Text("")]
  {
    TenDigits();
    PpvLower();
    KeyOfSplit("PPV 10", "PPV ", "10", "");
    EmptyKey();
  }

  lemma PpvLower()
    ensures LowerAll("PPV ") == "ppv " && TextOnly("PPV ")
  {
    assert LowerAll("PPV ") == "ppv ";
  }

  lemma EmptyKey()
    ensures NaturalKey("") == [Text("")]
  {
    OneChunk("");
    assert LowerAll("") == "";
  }

  lemma TenDigits()
    ensures Digits("10") && DigitsValue("10") == 10
  {
    assert "10"[..1] == "1";
    assert DigitsValue("1") == 1;
  }

  /** The decimal notation of a number. */
  function Decimal(n: nat): string {
    if n < 10 then ["0123456789"[n]] else Decimal(n / 10) + ["0123456789"[n % 10]]
  }

  lemma OneDigitMore(s: string, d: nat)
    requires Digits(s) && d < 10
    ensures var more := s + ["0123456789"[d]]; Digits(more) && DigitsValue(more) == DigitsValue(s) * 10 + d
  {
    var c := "0123456789"[d];
    var more := s + [c];
    assert IsDigit(c) && c as int - '0' as int == d;
    assert more[..|more| - 1] == s && more[|more| - 1] == c;
  }

  lemma {:induction false} DecimalReadsBack(n: nat)
    ensures Decimal(n) != "" && Digits(Decimal(n)) && DigitsValue(Decimal(n)) == n
  {
    if n >= 10 {
      DecimalReadsBack(n / 10);
      OneDigitMore(Decimal(n / 10), n % 10);
    } else {
      OneDigitMore("", n);
      assert "" + ["0123456789"[n]] == Decimal(n);
    }
  }

  /** Names that differ in a number only, or in that and what follows it, come in the order of the number. */
  lemma NumberedNames(p: string, m: nat, q: string, n: nat, r: string)
    requires (p == "" || !IsDigit(p[|p| - 1])) && (q == "" || !IsDigit(q[0])) && (r == "" || !IsDigit(r[0])) && m != n
    ensures KeyLess(NaturalKey(p + Decimal(m) + q), NaturalKey(p + Decimal(n) + r)) <==> m < n
  {
    DecimalReadsBack(m);
    DecimalReadsBack(n);
    NumbersDecide(p, Decimal(m), q, Decimal(n), r);
  }

  const CAPITALS := "ABCDEFGHIJKLMNOPQRSTUVWXYZ"
  const SMALL := "abcdefghijklmnopqrstuvwxyz"

  lemma Letters(i: nat)
    requires i < 26
    ensures CAPITALS[i] as int == 'A' as int + i && SMALL[i] as int == 'a' as int + i
  {
  }

  /** Which letters Lower changes, and to what. */
  lemma LowerExactly(c: char)
    ensures forall i :: 0 <= i < 26 && CAPITALS[i] == c ==> Lower(c) == SMALL[i]
    ensures c !in CAPITALS ==> Lower(c) == c
  {
    forall i | 0 <= i < 26 && CAPITALS[i] == c ensures Lower(c) == SMALL[i] {
      Letters(i);
    }
    if 'A' <= c <= 'Z' {
      Letters(c as int - 'A' as int);
    }
  }
}
