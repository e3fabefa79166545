/** Go's `strings.Split(s, sep)` and `strings.Join(parts, sep)` for a one-character
    separator, as the product service uses them with ",". */
module Strings {

  /** `strings.Split(s, [sep])`: the pieces of `s` between separators, in order;
      a string without the separator (the empty string included) gives one piece. */
  function Split(s: string, sep: char): (parts: seq<string>)
    ensures |parts| >= 1
  {
    if s == [] then [""]
    else
      var init := Split(s[..|s| - 1], sep);
      var c := s[|s| - 1];
      if c == sep then init + [""]
      else init[..|init| - 1] + [init[|init| - 1] + [c]]
  }

  /** `strings.Join(parts, [sep])`. */
  function Join(parts: seq<string>, sep: char): string
  {
    if |parts| == 0 then ""
    else if |parts| == 1 then parts[0]
    else Join(parts[..|parts| - 1], sep) + [sep] + parts[|parts| - 1]
  }

  /** No piece of a split contains the separator. */
  lemma {:induction false} SplitPiecesHaveNoSeparator(s: string, sep: char)
    ensures forall i :: 0 <= i < |Split(s, sep)| ==> sep !in Split(s, sep)[i]
  {
    if s != [] {
      SplitPiecesHaveNoSeparator(s[..|s| - 1], sep);
    }
  }

  /** One more character: a separator opens a new piece, any other character
      extends the last piece. */
  lemma SplitSnoc(s: string, c: char, sep: char)
    ensures var sp := Split(s, sep);
      Split(s + [c], sep) == if c == sep then sp + [""] else sp[..|sp| - 1] + [sp[|sp| - 1] + [c]]
  {
    assert (s + [c])[..|s + [c]| - 1] == s;
  }

  /** Extending the last piece by `c` and then by `r` is extending it by both. */
  lemma ExtendLast(init: seq<string>, last: string, c: char, r: string)
    ensures var l := init + [last + [c]];
      l[..|l| - 1] + [l[|l| - 1] + r] == init + [last + ([c] + r)]
  {
    var l := init + [last + [c]];
    assert l[..|l| - 1] == init;
    assert (last + [c]) + r == last + ([c] + r);
  }

  /** Appending text without a separator extends the last piece. */
  lemma {:induction false} SplitAppendPlain(p: string, q: string, sep: char)
    requires sep !in q
    ensures var sp := Split(p, sep);
      Split(p + q, sep) == sp[..|sp| - 1] + [sp[|sp| - 1] + q]
    decreases |q|
  {
    var sp := Split(p, sep);
    if q == [] {
      assert p + q == p;
      assert sp[|sp| - 1] + q == sp[|sp| - 1];
      assert sp[..|sp| - 1] + [sp[|sp| - 1]] == sp;
    } else {
      var c, r := q[0], q[1..];
      assert q == [c] + r;
      SplitSnoc(p, c, sep);
      SplitAppendPlain(p + [c], r, sep);
      assert (p + [c]) + r == p + q;
      ExtendLast(sp[..|sp| - 1], sp[|sp| - 1], c, r);
    }
  }

  /** Splitting undoes joining, for a non-empty list of pieces that contain no
      separator.  (`Split(Join([], ","), ",")` is `[""]`, not `[]`.) */
  lemma {:induction false} SplitJoin(parts: seq<string>, sep: char)
    requires |parts| >= 1
    requires forall i :: 0 <= i < |parts| ==> sep !in parts[i]
    ensures Split(Join(parts, sep), sep) == parts
  {
    if |parts| == 1 {
      SplitAppendPlain([], parts[0], sep);
      assert [] + parts[0] == parts[0];
    } else {
      var init := parts[..|parts| - 1];
      var last := parts[|parts| - 1];
      SplitJoin(init, sep);
      var j := Join(init, sep);
      assert (j + [sep])[..|j + [sep]| - 1] == j;
      assert Split(j + [sep], sep) == init + [""];
      SplitAppendPlain(j + [sep], last, sep);
      assert j + [sep] + last == Join(parts, sep);
      var sp := init + [""];
      assert sp[..|sp| - 1] == init;
      assert sp[|sp| - 1] + last == last;
      assert init + [last] == parts;
    }
  }

  /** Joining undoes splitting, for every string. */
  lemma {:induction false} JoinSplit(s: string, sep: char)
    ensures Join(Split(s, sep), sep) == s
  {
    if s != [] {
      var p := s[..|s| - 1];
      var c := s[|s| - 1];
      assert s == p + [c];
      JoinSplit(p, sep);
      SplitSnoc(p, c, sep);
      var sp := Split(p, sep);
      if c == sep {
        assert (sp + [""])[..|sp|] == sp;
      } else {
        JoinLastPiece(sp, sep, [c]);
      }
    }
  }

  /** Extending the last piece extends the joined string. */
  lemma JoinLastPiece(parts: seq<string>, sep: char, q: string)
    requires |parts| >= 1
    ensures Join(parts[..|parts| - 1] + [parts[|parts| - 1] + q], sep) == Join(parts, sep) + q
  {
    var ext := parts[..|parts| - 1] + [parts[|parts| - 1] + q];
    assert ext[..|ext| - 1] == parts[..|parts| - 1];
  }
}
