/** str.split and str.join on one separator character. */
module Splitting {
  predicate Free(s: string, sep: char) {
    forall i :: 0 <= i < |s| ==> s[i] != sep
  }

  function Split(s: string, sep: char): (parts: seq<string>)
    ensures |parts| > 0 && forall i :: 0 <= i < |parts| ==> Free(parts[i], sep)
  {
    if s == "" then [""]
    else
      var rest := Split(s[1..], sep);
      if s[0] == sep then [""] + rest else [[s[0]] + rest[0]] + rest[1..]
  }

  function Join(parts: seq<string>, sep: char): string
    requires |parts| > 0
  {
    if |parts| == 1 then parts[0] else parts[0] + [sep] + Join(parts[1..], sep)
  }

  lemma {:induction false} JoinSplit(s: string, sep: char)
    ensures Join(Split(s, sep), sep) == s
  {
    if s != "" {
      var rest := Split(s[1..], sep);
      JoinSplit(s[1..], sep);
      var parts := Split(s, sep);
      if s[0] == sep {
        assert parts[1..] == rest;
      } else {
        assert parts[1..] == rest[1..];
        assert s == [s[0]] + s[1..];
      }
    }
  }

  lemma {:induction false} SplitPrepends(head: string, rest: string, sep: char)
    requires Free(head, sep)
    ensures Split(head + rest, sep) == [head + Split(rest, sep)[0]] + Split(rest, sep)[1..]
  {
    if head == "" {
      assert head + rest == rest;
      assert head + Split(rest, sep)[0] == Split(rest, sep)[0];
    } else {
      assert (head + rest)[1..] == head[1..] + rest;
      assert forall i :: 0 <= i < |head[1..]| ==> head[1..][i] == head[i + 1];
      SplitPrepends(head[1..], rest, sep);
      assert [head[0]] + (head[1..] + Split(rest, sep)[0]) == head + Split(rest, sep)[0];
    }
  }

  lemma {:induction false} SplitJoin(parts: seq<string>, sep: char)
    requires |parts| > 0 && forall i :: 0 <= i < |parts| ==> Free(parts[i], sep)
    ensures Split(Join(parts, sep), sep) == parts
  {
    if |parts| == 1 {
      SplitPrepends(parts[0], "", sep);
      assert parts[0] + "" == parts[0];
    } else {
      var rest := [sep] + Join(parts[1..], sep);
      assert Join(parts, sep) == parts[0] + rest;
      assert rest[1..] == Join(parts[1..], sep);
      SplitJoin(parts[1..], sep);
      SplitPrepends(parts[0], rest, sep);
      assert Split(rest, sep) == [""] + parts[1..];
      assert parts[0] + Split(rest, sep)[0] == parts[0];
      assert Split(rest, sep)[1..] == parts[1..];
    }
  }
}
