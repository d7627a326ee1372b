/** The two operations of Go's `strings` package that the query and DSN readers use. */
module Strings {

  /** `strings.Split(s, sep)` for a one-character separator: the pieces between separators. */
  function Split(s: string, sep: char): (pieces: seq<string>)
    ensures |pieces| >= 1
    ensures forall p | p in pieces :: sep !in p
  {
    if s == [] then [[]]
    else if s[0] == sep then [[]] + Split(s[1..], sep)
    else var rest := Split(s[1..], sep); [[s[0]] + rest[0]] + rest[1..]
  }

  /** Joining the pieces back with the separator gives the original text. */
  function Join(pieces: seq<string>, sep: char): string
    requires |pieces| >= 1
  {
    if |pieces| == 1 then pieces[0] else pieces[0] + [sep] + Join(pieces[1..], sep)
  }

  /** Splitting text assembled from separator-free parts gives back exactly those parts. */
  lemma {:induction false} SplitJoin(pieces: seq<string>, sep: char)
    requires |pieces| >= 1
    requires forall p | p in pieces :: sep !in p
    ensures Split(Join(pieces, sep), sep) == pieces
    decreases |pieces|, |pieces[0]|
  {
    var head := pieces[0];
    if head == [] {
      if |pieces| > 1 {
        var joined := Join(pieces, sep);
        assert joined == [sep] + Join(pieces[1..], sep);
        assert joined[1..] == Join(pieces[1..], sep);
        SplitJoin(pieces[1..], sep);
        assert pieces == [[]] + pieces[1..];
      }
    } else {
      var shorter := [head[1..]] + pieces[1..];
      assert shorter[1..] == pieces[1..];
      var joined := Join(pieces, sep);
      assert joined == [head[0]] + Join(shorter, sep) by {
        if |pieces| > 1 {
          assert Join(shorter, sep) == head[1..] + [sep] + Join(pieces[1..], sep);
        }
      }
      assert joined[0] == head[0] && joined[1..] == Join(shorter, sep);
      assert head[0] != sep by { assert head[0] in head; }
      forall p | p in shorter ensures sep !in p {
        if p == head[1..] {
          assert forall c | c in head[1..] :: c in head;
        }
      }
      SplitJoin(shorter, sep);
      assert [head[0]] + head[1..] == head;
      assert pieces == [head] + pieces[1..];
    }
  }

  /** `strings.Cut(s, sep)` for a one-character separator: the text before and after its first occurrence. */
  function Cut(s: string, sep: char): (r: (string, string, bool))
    ensures r.2 <==> sep in s
    ensures r.2 ==> s == r.0 + [sep] + r.1 && sep !in r.0
    ensures !r.2 ==> r.0 == s && r.1 == []
  {
    if s == [] then ([], [], false)
    else if s[0] == sep then ([], s[1..], true)
    else
      var r := Cut(s[1..], sep);
      assert s == [s[0]] + s[1..];
      ([s[0]] + r.0, r.1, r.2)
  }

  /** Cutting at a separator that the first part does not contain gives back both parts. */
  lemma {:induction false} CutAtFirst(before: string, sep: char, after: string)
    requires sep !in before
    ensures Cut(before + [sep] + after, sep) == (before, after, true)
  {
    var s := before + [sep] + after;
    if before != [] {
      assert s[0] == before[0] && s[1..] == before[1..] + [sep] + after;
      assert before[0] in before;
      CutAtFirst(before[1..], sep, after);
      assert [before[0]] + before[1..] == before;
    } else {
      assert s[1..] == after;
    }
  }
}
