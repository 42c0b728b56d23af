/** Five-part cron expressions as text. */
module CronText {
  import opened Options

  /** The ASCII white space that str.split and str.strip know. */
  predicate Blank(c: char) {
    c == ' ' || '\t' <= c <= '\r' || '\U{1c}' <= c <= '\U{1f}'
  }

  predicate Word(s: string) {
    s != "" && forall i :: 0 <= i < |s| ==> !Blank(s[i])
  }

  /** The leading run without white space. */
  function Head(s: string): (w: string)
    ensures w <= s && (forall i :: 0 <= i < |w| ==> !Blank(w[i])) && (|w| < |s| ==> Blank(s[|w|]))
  {
    if s == "" || Blank(s[0]) then "" else [s[0]] + Head(s[1..])
  }

  /** split() without arguments: the maximal runs without white space. */
  function Words(s: string): (words: seq<string>)
    ensures forall w :: w in words ==> Word(w)
    decreases |s|
  {
    if s == "" then []
    else if Blank(s[0]) then Words(s[1..])
    else [Head(s)] + Words(s[|Head(s)|..])
  }

  datatype Cron = Cron(minute: string, hour: string, dayOfMonth: string, monthOfYear: string, dayOfWeek: string)

  /** None where the source raises ValueError. */
  function Parse(s: string): Option<Cron> {
    var parts := Words(s);
    if |parts| == 5 then Some(Cron(parts[0], parts[1], parts[2], parts[3], parts[4])) else None
  }

  predicate Printable(c: Cron) {
    Word(c.minute) && Word(c.hour) && Word(c.dayOfMonth) && Word(c.monthOfYear) && Word(c.dayOfWeek)
  }

  function Join(words: seq<string>): string {
    if words == [] then "" else if |words| == 1 then words[0] else words[0] + " " + Join(words[1..])
  }

  function Print(c: Cron): string {
    Join([c.minute, c.hour, c.dayOfMonth, c.monthOfYear, c.dayOfWeek])
  }

  lemma {:induction false} HeadOfWord(w: string, rest: string)
    requires Word(w) && (rest != "" ==> Blank(rest[0]))
    ensures Head(w + rest) == w
    decreases |w|
  {
    assert (w + rest)[0] == w[0] && (w + rest)[1..] == w[1..] + rest;
    if |w| == 1 {
      assert w[1..] + rest == rest;
    } else {
      HeadOfWord(w[1..], rest);
    }
  }

  lemma {:induction false} WordsOfJoin(words: seq<string>)
    requires forall w :: w in words ==> Word(w)
    ensures Words(Join(words)) == words
    decreases |words|
  {
    if words != [] {
      var w := words[0];
      assert w in words;
      var rest := if |words| == 1 then "" else " " + Join(words[1..]);
      assert Join(words) == w + rest;
      HeadOfWord(w, rest);
      assert (w + rest)[0] == w[0] && (w + rest)[|w|..] == rest;
      if |words| > 1 {
        assert rest[1..] == Join(words[1..]);
        assert forall v :: v in words[1..] ==> v in words;
        WordsOfJoin(words[1..]);
      }
    }
  }

  lemma ParsePrint(c: Cron)
    requires Printable(c)
    ensures Parse(Print(c)) == Some(c)
  {
    WordsOfJoin([c.minute, c.hour, c.dayOfMonth, c.monthOfYear, c.dayOfWeek]);
  }

  /** Every accepted text means the same as its five words with single blanks between them. */
  lemma ParseNormalises(s: string)
    requires Parse(s).Some?
    ensures Printable(Parse(s).value) && Parse(Print(Parse(s).value)) == Parse(s)
  {
    var parts := Words(s);
    assert forall i :: 0 <= i < 5 ==> parts[i] in parts;
    ParsePrint(Parse(s).value);
  }

  /* Words in any white space */

  const WHITE := {' ', '\t', '\n', '\U{b}', '\U{c}', '\r', '\U{1c}', '\U{1d}', '\U{1e}', '\U{1f}'}

  lemma BlankExactly(c: char)
    ensures Blank(c) <==> c in WHITE
  {
  }

  predicate AllWhite(s: string) {
    forall i :: 0 <= i < |s| ==> s[i] in WHITE
  }

  predicate NoneWhite(s: string) {
    forall i :: 0 <= i < |s| ==> s[i] !in WHITE
  }

  /** The words with white space before each and the rest of it at the end. */
  function Spread(gaps: seq<string>, words: seq<string>): string
    requires |gaps| == |words| + 1
  {
    if words == [] then gaps[0] else gaps[0] + words[0] + Spread(gaps[1..], words[1..])
  }

  lemma {:induction false} WordsBehindGap(gap: string, rest: string)
    requires AllWhite(gap)
    ensures Words(gap + rest) == Words(rest)
    decreases |gap|
  {
    if gap == "" {
      assert gap + rest == rest;
    } else {
      BlankExactly(gap[0]);
      assert (gap + rest)[0] == gap[0] && (gap + rest)[1..] == gap[1..] + rest;
      WordsBehindGap(gap[1..], rest);
    }
  }

  lemma WordFirst(w: string, rest: string)
    requires w != "" && NoneWhite(w) && (rest == "" || rest[0] in WHITE)
    ensures Word(w) && Words(w + rest) == [w] + Words(rest)
  {
    forall i | 0 <= i < |w| ensures !Blank(w[i]) {
      BlankExactly(w[i]);
    }
    if rest != "" {
      BlankExactly(rest[0]);
    }
    HeadOfWord(w, rest);
    assert (w + rest)[0] == w[0] && (w + rest)[|w|..] == rest;
  }

  /** Words finds them, whatever the white space around and, not empty, between them. */
  lemma {:induction false} WordsOfSpread(gaps: seq<string>, words: seq<string>)
    requires |gaps| == |words| + 1 && forall i :: 0 <= i < |gaps| ==> AllWhite(gaps[i])
    requires forall i :: 0 < i < |words| ==> gaps[i] != ""
    requires forall i :: 0 <= i < |words| ==> words[i] != "" && NoneWhite(words[i])
    ensures Words(Spread(gaps, words)) == words
    decreases |words|
  {
    if words == [] {
      WordsBehindGap(gaps[0], "");
      assert gaps[0] + "" == gaps[0];
    } else {
      var rest := Spread(gaps[1..], words[1..]);
      assert Spread(gaps, words) == gaps[0] + (words[0] + rest);
      WordsBehindGap(gaps[0], words[0] + rest);
      RestStartsWhite(gaps[1..], words[1..]);
      WordFirst(words[0], rest);
      WordsOfSpread(gaps[1..], words[1..]);
    }
  }

  lemma RestStartsWhite(gaps: seq<string>, words: seq<string>)
    requires |gaps| == |words| + 1 && AllWhite(gaps[0]) && (words != [] ==> gaps[0] != "")
    ensures Spread(gaps, words) == "" || Spread(gaps, words)[0] in WHITE
  {
  }
}
