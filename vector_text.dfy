/** The text form of a stored vector: its element strings joined with ','
    when a batch is written, and split on ',' when the store is read back. */
module VectorText {

  const Comma: char := ','

  predicate CommaFree(parts: seq<string>)
  {
    forall k :: 0 <= k < |parts| ==> Comma !in parts[k]
  }

  /** `join(",")` over the element strings: no parts give the empty text,
      one part is the text itself, and consecutive parts are set apart by
      a separator each. `SplitJoin` and `JoinSplit` relate it to `Split`. */
  function Join(parts: seq<string>): (s: string)
    ensures |parts| == 0 ==> s == ""
    ensures |parts| == 1 ==> s == parts[0]
    ensures |s| >= |parts| - 1
    decreases |parts|
  {
    if |parts| == 0 then ""
    else if |parts| == 1 then parts[0]
    else parts[0] + [Comma] + Join(parts[1..])
  }

  /** `split(",")`: every comma ends one piece and starts the next, so the
      result is never empty and no piece holds a comma. */
  function Split(s: string): (pieces: seq<string>)
    ensures |pieces| >= 1
    ensures CommaFree(pieces)
    decreases |s|
  {
    if |s| == 0 then [""]
    else
      var rest := Split(s[1..]);
      if s[0] == Comma then [""] + rest
      else [[s[0]] + rest[0]] + rest[1..]
  }

  /** A piece without a comma splits to itself. */
  lemma {:induction false} SplitCommaFree(a: string)
    requires Comma !in a
    ensures Split(a) == [a]
    decreases |a|
  {
    if |a| > 0 {
      assert a[0] in a;
      SplitCommaFree(a[1..]);
      assert [a[0]] + a[1..] == a;
    }
  }

  /** Splitting stops at the first comma. */
  lemma {:induction false} SplitAtFirstComma(a: string, t: string)
    requires Comma !in a
    ensures Split(a + [Comma] + t) == [a] + Split(t)
    decreases |a|
  {
    var s := a + [Comma] + t;
    if |a| == 0 {
      assert s[0] == Comma && s[1..] == t;
    } else {
      assert s[0] == a[0] && s[1..] == a[1..] + [Comma] + t;
      SplitAtFirstComma(a[1..], t);
      assert [a[0]] + a[1..] == a;
    }
  }

  /** Splitting a joined vector gives back its element strings when none
      holds a comma; the empty vector comes back as one empty piece. */
  lemma {:induction false} SplitJoin(parts: seq<string>)
    requires CommaFree(parts)
    ensures Split(Join(parts)) == if |parts| == 0 then [""] else parts
    decreases |parts|
  {
    if |parts| == 1 {
      SplitCommaFree(parts[0]);
    } else if |parts| > 1 {
      assert CommaFree(parts[1..]) by {
        forall k | 0 <= k < |parts| - 1 ensures Comma !in parts[1..][k] {
          assert parts[1..][k] == parts[k + 1];
        }
      }
      SplitJoin(parts[1..]);
      SplitAtFirstComma(parts[0], Join(parts[1..]));
      assert [parts[0]] + parts[1..] == parts;
    }
  }

  /** Joining the pieces of a split restores the text, for every text. */
  lemma {:induction false} JoinSplit(s: string)
    ensures Join(Split(s)) == s
    decreases |s|
  {
    if |s| > 0 {
      JoinSplit(s[1..]);
      var rest := Split(s[1..]);
      if s[0] == Comma {
        assert Split(s) == [""] + rest;
        assert ([""] + rest)[1..] == rest;
        assert [s[0]] + s[1..] == s;
      } else {
        var pieces := [[s[0]] + rest[0]] + rest[1..];
        assert Split(s) == pieces;
        if |rest| == 1 {
          assert Join(rest) == rest[0];
        } else {
          assert pieces[1..] == rest[1..];
          assert Join(rest) == rest[0] + [Comma] + Join(rest[1..]);
        }
        assert [s[0]] + s[1..] == s;
      }
    }
  }
}
