/**
  The two operations of Go's strings package that the image-tag override uses,
  strings.Split and strings.Join, for a separator of one character.
*/
module Strings {

  /**
    strings.Split(s, [sep]): the pieces of s between occurrences of sep.
    There is always at least one piece (the empty string splits into [""]),
    and no piece contains the separator.
  */
  function Split(s: string, sep: char): (parts: seq<string>)
    ensures |parts| >= 1
    ensures forall i :: 0 <= i < |parts| ==> sep !in parts[i]
    decreases |s|
  {
    if |s| == 0 then [""]
    else
      var rest := Split(s[1..], sep);
      if s[0] == sep then [""] + rest
      else [[s[0]] + rest[0]] + rest[1..]
  }

  /** strings.Join(parts, [sep]): the parts with sep between neighbours. */
  function Join(parts: seq<string>, sep: char): (s: string)
    requires |parts| >= 1
    decreases |parts|
  {
    if |parts| == 1 then parts[0] else parts[0] + [sep] + Join(parts[1..], sep)
  }

  /** Joining parts followed by one more part puts one separator before the last part. */
  lemma {:induction false} JoinSnoc(parts: seq<string>, last: string, sep: char)
    requires |parts| >= 1
    ensures Join(parts + [last], sep) == Join(parts, sep) + [sep] + last
    decreases |parts|
  {
    var all := parts + [last];
    assert all[1..] == parts[1..] + [last];
    if |parts| > 1 {
      JoinSnoc(parts[1..], last, sep);
    } else {
      assert all[1..] == [last];
    }
  }

  /** A string splits into exactly one piece, itself, if and only if it holds no separator. */
  lemma {:induction false} SplitSingle(s: string, sep: char)
    ensures sep !in s <==> Split(s, sep) == [s]
    ensures sep !in s <==> |Split(s, sep)| == 1
    decreases |s|
  {
    if |s| > 0 {
      SplitSingle(s[1..], sep);
      assert s == [s[0]] + s[1..];
      if s[0] != sep && sep !in s[1..] {
        assert Split(s, sep) == [[s[0]] + s[1..]];
      }
    }
  }

  /** Joining the pieces of a split gives back the original string. */
  lemma {:induction false} JoinSplit(s: string, sep: char)
    ensures Join(Split(s, sep), sep) == s
    decreases |s|
  {
    if |s| > 0 {
      JoinSplit(s[1..], sep);
      var rest := Split(s[1..], sep);
      if s[0] == sep {
        assert ([""] + rest)[1..] == rest;
      } else if |rest| > 1 {
        var head := [s[0]] + rest[0];
        assert ([head] + rest[1..])[1..] == rest[1..];
        assert Join(rest, sep) == rest[0] + [sep] + Join(rest[1..], sep);
      }
    }
  }

  /** A separator-free piece followed by the separator splits off as one piece. */
  lemma {:induction false} SplitAfterPiece(p: string, sep: char, t: string)
    requires sep !in p
    ensures Split(p + [sep] + t, sep) == [p] + Split(t, sep)
    decreases |p|
  {
    if |p| == 0 {
      assert p + [sep] + t == [sep] + t;
      assert ([sep] + t)[1..] == t;
    } else {
      var s := p + [sep] + t;
      assert s[0] == p[0] && s[1..] == p[1..] + [sep] + t;
      SplitAfterPiece(p[1..], sep, t);
      assert [p[0]] + p[1..] == p;
    }
  }

  /**
    Splitting a join whose leading parts hold no separator gives back those
    parts, followed by the pieces of the last part.
  */
  lemma {:induction false} SplitJoinLast(init: seq<string>, last: string, sep: char)
    requires forall i :: 0 <= i < |init| ==> sep !in init[i]
    ensures Split(Join(init + [last], sep), sep) == init + Split(last, sep)
    decreases |init|
  {
    if |init| > 0 {
      var parts := init + [last];
      assert parts[1..] == init[1..] + [last];
      SplitJoinLast(init[1..], last, sep);
      SplitAfterPiece(init[0], sep, Join(parts[1..], sep));
      assert init == [init[0]] + init[1..];
    } else {
      assert init + [last] == [last];
    }
  }

  /** Splitting a join of separator-free pieces gives back the pieces. */
  lemma SplitJoin(parts: seq<string>, sep: char)
    requires |parts| >= 1
    requires forall i :: 0 <= i < |parts| ==> sep !in parts[i]
    ensures Split(Join(parts, sep), sep) == parts
  {
    var n := |parts|;
    assert parts == parts[..n - 1] + [parts[n - 1]];
    SplitJoinLast(parts[..n - 1], parts[n - 1], sep);
    SplitSingle(parts[n - 1], sep);
  }
}
