/**
 * Splitting a string at its dots, and joining labels with dots. The address
 * patterns of the forward-rule form are stated over the dot-separated labels.
 */
module DotLabels {
  /** The pieces of `s` between its dots, in order; a string without dots is one piece. */
  function Split(s: string): (ls: seq<string>)
    ensures |ls| >= 1
    decreases |s|
  {
    if s == [] then [[]]
    else
      var rest := Split(s[1..]);
      if s[0] == '.' then [[]] + rest
      else [[s[0]] + rest[0]] + rest[1..]
  }

  /** The labels `ls` written one after another with a dot between neighbours. */
  function Join(ls: seq<string>): string
    requires |ls| >= 1
  {
    if |ls| == 1 then ls[0] else ls[0] + "." + Join(ls[1..])
  }

  predicate DotFree(l: string)
  {
    forall k :: 0 <= k < |l| ==> l[k] != '.'
  }

  predicate AllDotFree(ls: seq<string>)
  {
    forall i :: 0 <= i < |ls| ==> DotFree(ls[i])
  }

  /** Splitting loses nothing: the labels join back to the string, and none holds a dot. */
  lemma {:induction false} JoinSplit(s: string)
    ensures Join(Split(s)) == s
    ensures AllDotFree(Split(s))
    decreases |s|
  {
    if s != [] {
      var rest := Split(s[1..]);
      JoinSplit(s[1..]);
      if s[0] == '.' {
        assert Split(s) == [[]] + rest;
        assert ([[]] + rest)[1..] == rest;
        assert Join(Split(s)) == [] + "." + Join(rest);
        assert s == [s[0]] + s[1..];
      } else {
        var ls := Split(s);
        assert ls == [[s[0]] + rest[0]] + rest[1..];
        if |rest| == 1 {
          assert Join(ls) == [s[0]] + rest[0];
          assert Join(rest) == rest[0];
        } else {
          assert ls[1..] == rest[1..];
          assert Join(ls) == [s[0]] + rest[0] + "." + Join(rest[1..]);
          assert Join(rest) == rest[0] + "." + Join(rest[1..]);
        }
        assert s == [s[0]] + s[1..];
        forall i | 0 <= i < |ls| ensures DotFree(ls[i]) {
          if i > 0 {
            assert ls[i] == rest[i];
          } else {
            assert DotFree(rest[0]);
          }
        }
      }
    }
  }

  /** A dot-free prefix merges into the first label of what follows it. */
  lemma {:induction false} SplitDotFreePrefix(l: string, t: string)
    requires DotFree(l)
    ensures Split(l + t) == [l + Split(t)[0]] + Split(t)[1..]
    decreases |l|
  {
    if l != [] {
      assert (l + t)[1..] == l[1..] + t;
      assert l[0] != '.';
      SplitDotFreePrefix(l[1..], t);
      var rest := Split(l[1..] + t);
      assert Split(l + t) == [[l[0]] + rest[0]] + rest[1..];
      assert rest[0] == l[1..] + Split(t)[0];
      assert [l[0]] + (l[1..] + Split(t)[0]) == l + Split(t)[0];
    } else {
      assert l + t == t;
      var ts := Split(t);
      assert ts == [ts[0]] + ts[1..];
      assert l + ts[0] == ts[0];
    }
  }

  /** Joining dot-free labels and splitting again gives the same labels. */
  lemma {:induction false} SplitJoin(ls: seq<string>)
    requires |ls| >= 1
    requires AllDotFree(ls)
    ensures Split(Join(ls)) == ls
    decreases |ls|
  {
    if |ls| == 1 {
      SplitDotFreePrefix(ls[0], []);
      assert ls[0] + [] == ls[0];
    } else {
      var j := Join(ls[1..]);
      SplitJoin(ls[1..]);
      var t := "." + j;
      assert t[1..] == j;
      assert Split(t) == [[]] + ls[1..];
      SplitDotFreePrefix(ls[0], t);
      assert ls[0] + [] == ls[0];
      assert Join(ls) == ls[0] + t;
    }
  }
}
