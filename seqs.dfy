/** Generic sequence operations the string functions of the model are built from. */
module Seqs {
  import opened Wrappers

  /** The index of the first element of `s`, at or after `k`, that satisfies `p`: what
      `findOne` and `findById` return on a collection kept in storage order. */
  function FindFirst<T>(p: T -> bool, s: seq<T>, k: nat): (r: Option<nat>)
    requires k <= |s|
    ensures r.Some? ==> k <= r.value < |s| && p(s[r.value])
    ensures r.Some? ==> forall j :: k <= j < r.value ==> !p(s[j])
    ensures r.None? <==> forall j :: k <= j < |s| ==> !p(s[j])
    decreases |s| - k
  {
    if k == |s| then None
    else if p(s[k]) then Some(k)
    else FindFirst(p, s, k + 1)
  }

  /** The elements of `s` that satisfy `p`, in their original order. */
  function Filter<T>(p: T -> bool, s: seq<T>): (r: seq<T>)
    ensures |r| <= |s|
    ensures forall i :: 0 <= i < |r| ==> p(r[i])
  {
    if s == [] then []
    else if p(s[0]) then [s[0]] + Filter(p, s[1..])
    else Filter(p, s[1..])
  }

  /** Filtering distributes over concatenation. */
  lemma {:induction false} FilterAppend<T>(p: T -> bool, a: seq<T>, b: seq<T>)
    ensures Filter(p, a + b) == Filter(p, a) + Filter(p, b)
  {
    if a != [] {
      assert (a + b)[0] == a[0];
      assert (a + b)[1..] == a[1..] + b;
      FilterAppend(p, a[1..], b);
    } else {
      assert a + b == b;
    }
  }

  /** Filtering keeps exactly the elements that satisfy `p`. */
  lemma {:induction false} FilterMembership<T>(p: T -> bool, s: seq<T>, x: T)
    ensures x in Filter(p, s) <==> x in s && p(x)
  {
    if s != [] {
      FilterMembership(p, s[1..], x);
      assert s == [s[0]] + s[1..];
    }
  }

  /** Whatever holds of every element of `s` holds of every element of its filter. */
  lemma {:induction false} FilterPreserves<T>(p: T -> bool, q: T -> bool, s: seq<T>)
    requires forall i :: 0 <= i < |s| ==> q(s[i])
    ensures forall i :: 0 <= i < |Filter(p, s)| ==> q(Filter(p, s)[i])
  {
    if s != [] {
      FilterPreserves(p, q, s[1..]);
    }
  }

  /** A sequence every element of which satisfies `p` is its own filter. */
  lemma {:induction false} FilterAll<T>(p: T -> bool, s: seq<T>)
    requires forall i :: 0 <= i < |s| ==> p(s[i])
    ensures Filter(p, s) == s
  {
    if s != [] {
      FilterAll(p, s[1..]);
    }
  }

  /** A sequence no element of which satisfies `p` filters to nothing. */
  lemma {:induction false} FilterNone<T>(p: T -> bool, s: seq<T>)
    requires forall i :: 0 <= i < |s| ==> !p(s[i])
    ensures Filter(p, s) == []
  {
    if s != [] {
      FilterNone(p, s[1..]);
    }
  }

  /** The length of the longest prefix of `s` whose elements all satisfy `p`. */
  function PrefixLength<T>(p: T -> bool, s: seq<T>): (n: nat)
    ensures n <= |s|
    ensures forall i :: 0 <= i < n ==> p(s[i])
    ensures n < |s| ==> !p(s[n])
  {
    if s != [] && p(s[0]) then 1 + PrefixLength(p, s[1..]) else 0
  }

  /** `s` without its longest prefix of elements satisfying `p`. */
  function DropWhile<T>(p: T -> bool, s: seq<T>): (r: seq<T>)
    ensures r == s[PrefixLength(p, s)..]
    ensures r == [] || !p(r[0])
  {
    s[PrefixLength(p, s)..]
  }

  /** The concatenation of a sequence of sequences. */
  function Concat<T>(ss: seq<seq<T>>): seq<T> {
    if ss == [] then [] else ss[0] + Concat(ss[1..])
  }

  /** Concatenation distributes over appending lists of sequences. */
  lemma {:induction false} ConcatAppend<T>(a: seq<seq<T>>, b: seq<seq<T>>)
    ensures Concat(a + b) == Concat(a) + Concat(b)
  {
    if a != [] {
      assert (a + b)[0] == a[0];
      assert (a + b)[1..] == a[1..] + b;
      ConcatAppend(a[1..], b);
    } else {
      assert a + b == b;
    }
  }

  /** Dropping pieces that are empty does not change the concatenation. */
  lemma {:induction false} ConcatDropsEmpty<T>(keep: seq<T> -> bool, pieces: seq<seq<T>>)
    requires forall i :: 0 <= i < |pieces| && !keep(pieces[i]) ==> pieces[i] == []
    ensures Concat(Filter(keep, pieces)) == Concat(pieces)
  {
    if pieces != [] {
      var head, tail := pieces[0], pieces[1..];
      ConcatDropsEmpty(keep, tail);
      assert Concat(pieces) == head + Concat(tail);
      if keep(head) {
        assert Filter(keep, pieces) == [head] + Filter(keep, tail);
        ConcatAppend([head], Filter(keep, tail));
        assert Concat([head]) == head;
      } else {
        assert Filter(keep, pieces) == Filter(keep, tail);
        assert head == [];
      }
    }
  }

  /** The length of the longest prefix of `s` whose elements all fail `keep`. */
  function NonPrefixLength<T>(keep: T -> bool, s: seq<T>): (n: nat)
    ensures n <= |s|
    ensures forall i :: 0 <= i < n ==> !keep(s[i])
    ensures n < |s| ==> keep(s[n])
  {
    if s != [] && !keep(s[0]) then 1 + NonPrefixLength(keep, s[1..]) else 0
  }

  /** `s` without its longest prefix of elements that fail `keep`. */
  function SkipNon<T>(keep: T -> bool, s: seq<T>): (r: seq<T>)
    ensures r == s[NonPrefixLength(keep, s)..]
    ensures r == [] || keep(r[0])
  {
    s[NonPrefixLength(keep, s)..]
  }

  /** The pieces of `s` between maximal runs of elements that are not word elements,
      including an empty piece before a leading run and after a trailing one; the
      empty sequence gives one empty piece. */
  function SplitRuns<T>(isWord: T -> bool, s: seq<T>): (pieces: seq<seq<T>>)
    ensures |pieces| >= 1
    decreases |s|
  {
    var n := PrefixLength(isWord, s);
    if n == |s| then [s] else [s[..n]] + SplitRuns(isWord, SkipNon(isWord, s[n..]))
  }

  /** One step of the split: the first piece, then the split of what follows its run. */
  lemma SplitRunsStep<T>(isWord: T -> bool, s: seq<T>)
    requires PrefixLength(isWord, s) < |s|
    ensures var n := PrefixLength(isWord, s);
      var rest := SkipNon(isWord, s[n..]);
      && |rest| < |s|
      && SplitRuns(isWord, s) == [s[..n]] + SplitRuns(isWord, rest)
      && Filter(isWord, s) == s[..n] + Filter(isWord, rest)
  {
    var n := PrefixLength(isWord, s);
    FilterSplitAt(isWord, s, n);
    SkipNonFilter(isWord, s[n..]);
  }

  /** Filtering a sequence whose first `n` elements all pass keeps those `n` in front. */
  lemma FilterSplitAt<T>(p: T -> bool, s: seq<T>, n: nat)
    requires n <= |s|
    requires forall i :: 0 <= i < n ==> p(s[i])
    ensures Filter(p, s) == s[..n] + Filter(p, s[n..])
  {
    assert s == s[..n] + s[n..];
    FilterAppend(p, s[..n], s[n..]);
    FilterAll(p, s[..n]);
  }

  /** Skipping elements that fail `keep` does not change the filter. */
  lemma SkipNonFilter<T>(keep: T -> bool, s: seq<T>)
    ensures Filter(keep, SkipNon(keep, s)) == Filter(keep, s)
  {
    var m := NonPrefixLength(keep, s);
    assert s == s[..m] + s[m..];
    FilterAppend(keep, s[..m], s[m..]);
    FilterNone(keep, s[..m]);
  }

  /** Splitting loses exactly the non-word elements: the pieces, concatenated in order,
      are the word elements of `s`. */
  lemma {:induction false} ConcatSplitRuns<T>(isWord: T -> bool, s: seq<T>)
    ensures Concat(SplitRuns(isWord, s)) == Filter(isWord, s)
    decreases |s|
  {
    var n := PrefixLength(isWord, s);
    if n == |s| {
      assert Concat([s]) == s;
      FilterAll(isWord, s);
    } else {
      SplitRunsStep(isWord, s);
      ConcatSplitRuns(isWord, SkipNon(isWord, s[n..]));
    }
  }

  /** Every element of every piece is a word element, and satisfies whatever every
      element of `s` satisfies. */
  lemma {:induction false} SplitRunsElements<T>(isWord: T -> bool, q: T -> bool, s: seq<T>)
    requires forall i :: 0 <= i < |s| ==> q(s[i])
    ensures forall i, k :: 0 <= i < |SplitRuns(isWord, s)| && 0 <= k < |SplitRuns(isWord, s)[i]| ==>
      isWord(SplitRuns(isWord, s)[i][k]) && q(SplitRuns(isWord, s)[i][k])
    decreases |s|
  {
    var n := PrefixLength(isWord, s);
    if n < |s| {
      var rest := SkipNon(isWord, s[n..]);
      SplitRunsStep(isWord, s);
      forall j | 0 <= j < |rest| ensures q(rest[j]) {
        assert rest[j] == s[|s| - |rest| + j];
      }
      SplitRunsElements(isWord, q, rest);
    }
  }

  /** `words` joined with `sep` between consecutive elements. */
  function Join<T>(words: seq<seq<T>>, sep: seq<T>): seq<T> {
    if words == [] then []
    else if |words| == 1 then words[0]
    else words[0] + sep + Join(words[1..], sep)
  }

  /** Every element of a join is a separator element or an element of a word. */
  lemma {:induction false} JoinElements<T>(q: T -> bool, words: seq<seq<T>>, sep: seq<T>)
    requires forall k :: 0 <= k < |sep| ==> q(sep[k])
    requires forall i, k :: 0 <= i < |words| && 0 <= k < |words[i]| ==> q(words[i][k])
    ensures forall k :: 0 <= k < |Join(words, sep)| ==> q(Join(words, sep)[k])
  {
    if |words| > 1 {
      JoinElements(q, words[1..], sep);
      assert Join(words, sep) == words[0] + sep + Join(words[1..], sep);
    }
  }

  /** The run of passing elements in front of a failing one ends at that element. */
  lemma PrefixLengthBefore<T>(p: T -> bool, w: seq<T>, x: T, r: seq<T>)
    requires forall k :: 0 <= k < |w| ==> p(w[k])
    requires !p(x)
    ensures PrefixLength(p, w + [x] + r) == |w|
  {
    var s := w + [x] + r;
    assert s[|w|] == x;
    assert forall k :: 0 <= k < |w| ==> s[k] == w[k];
  }

  /** Skipping one failing element in front of a kept one leaves the rest. */
  lemma SkipNonOne<T>(keep: T -> bool, x: T, r: seq<T>)
    requires !keep(x) && r != [] && keep(r[0])
    ensures SkipNon(keep, [x] + r) == r
  {
    assert ([x] + r)[1..] == r;
    assert ([x] + r)[1] == r[0];
  }

  /** A join of words whose first is non-empty starts with that word's first element. */
  lemma JoinHead<T>(words: seq<seq<T>>, sep: seq<T>)
    requires words != [] && words[0] != []
    ensures Join(words, sep) != [] && Join(words, sep)[0] == words[0][0]
  {
  }

  /** One step of `SplitRunsJoin`: the first word is the first piece, and the split goes
      on after the separator that follows it. */
  lemma SplitRunsJoinStep<T>(isWord: T -> bool, words: seq<seq<T>>, sep: T)
    requires |words| > 1 && !isWord(sep) && words[0] != [] && words[1] != []
    requires forall k :: 0 <= k < |words[0]| ==> isWord(words[0][k])
    requires isWord(words[1][0])
    ensures SplitRuns(isWord, Join(words, [sep]))
      == [words[0]] + SplitRuns(isWord, Join(words[1..], [sep]))
  {
    var s := Join(words, [sep]);
    var w := words[0];
    var rest := Join(words[1..], [sep]);
    assert s == w + [sep] + rest;
    PrefixLengthBefore(isWord, w, sep, rest);
    JoinHead(words[1..], [sep]);
    assert s[|w|..] == [sep] + rest;
    SkipNonOne(isWord, sep, rest);
    SplitRunsStep(isWord, s);
    assert s[..|w|] == w;
  }

  /** Splitting words joined by one non-word element gives the words back, provided they
      are non-empty and made of word elements. */
  lemma {:induction false} SplitRunsJoin<T>(isWord: T -> bool, words: seq<seq<T>>, sep: T)
    requires words != [] && !isWord(sep)
    requires forall i :: 0 <= i < |words| ==> |words[i]| > 0
    requires forall i, k :: 0 <= i < |words| && 0 <= k < |words[i]| ==> isWord(words[i][k])
    ensures SplitRuns(isWord, Join(words, [sep])) == words
  {
    if |words| == 1 {
      assert PrefixLength(isWord, Join(words, [sep])) == |Join(words, [sep])|;
    } else {
      SplitRunsJoinStep(isWord, words, sep);
      SplitRunsJoin(isWord, words[1..], sep);
      assert words == [words[0]] + words[1..];
    }
  }

  /** `seps[0] + words[0] + seps[1] + ... + words[n-1] + seps[n]`: words with a run of
      separators before, between and after them. */
  function Interleave<T>(words: seq<seq<T>>, seps: seq<seq<T>>): seq<T>
    requires |seps| == |words| + 1
  {
    if words == [] then seps[0] else seps[0] + words[0] + Interleave(words[1..], seps[1..])
  }

  /** Filtering drops a refused first element. */
  lemma FilterRefusedHead<T>(p: T -> bool, x: T, rest: seq<T>)
    requires !p(x)
    ensures Filter(p, [x] + rest) == Filter(p, rest)
  {
    assert ([x] + rest)[0] == x;
    assert ([x] + rest)[1..] == rest;
  }

  /** Filtering keeps a passing first element in front. */
  lemma FilterKeptHead<T>(p: T -> bool, x: T, rest: seq<T>)
    requires p(x)
    ensures Filter(p, [x] + rest) == [x] + Filter(p, rest)
  {
    assert ([x] + rest)[0] == x;
    assert ([x] + rest)[1..] == rest;
  }

  /** A sequence that opens with a run of `m` non-word elements splits into an empty
      piece and the pieces of what follows the run. */
  lemma SplitRunsAfterRun<T>(isWord: T -> bool, s: seq<T>, m: nat)
    requires 0 < m <= |s|
    requires forall k :: 0 <= k < m ==> !isWord(s[k])
    requires m == |s| || isWord(s[m])
    ensures SplitRuns(isWord, s) == [[]] + SplitRuns(isWord, s[m..])
  {
    assert !isWord(s[0]);
    assert PrefixLength(isWord, s) == 0;
    assert NonPrefixLength(isWord, s) == m;
    assert s[0..] == s;
    assert s[..0] == [];
  }

  /** A sequence that opens with a word of `n` elements and then a non-word element
      splits into that word and the pieces after the run that follows it. */
  lemma SplitRunsAfterWord<T>(isWord: T -> bool, s: seq<T>, n: nat)
    requires n < |s| && !isWord(s[n])
    requires forall k :: 0 <= k < n ==> isWord(s[k])
    ensures SplitRuns(isWord, s) == [s[..n]] + SplitRuns(isWord, SkipNon(isWord, s[n..]))
  {
    assert PrefixLength(isWord, s) == n;
  }

  /** A run of non-word elements in front of a word (or of nothing) adds no kept piece. */
  lemma LeadingRunAddsNothing<T>(isWord: T -> bool, keep: seq<T> -> bool, sep: seq<T>, t: seq<T>)
    requires forall k :: 0 <= k < |sep| ==> !isWord(sep[k])
    requires t == [] || isWord(t[0])
    requires !keep([])
    ensures Filter(keep, SplitRuns(isWord, sep + t)) == Filter(keep, SplitRuns(isWord, t))
  {
    if sep != [] {
      var s := sep + t;
      forall k | 0 <= k < |sep| ensures !isWord(s[k]) {
        assert s[k] == sep[k];
      }
      if t != [] {
        assert s[|sep|] == t[0];
      }
      SplitRunsAfterRun(isWord, s, |sep|);
      assert s[|sep|..] == t;
      FilterRefusedHead(keep, [], SplitRuns(isWord, t));
    } else {
      assert sep + t == t;
    }
  }

  /** A word followed by nothing, or by a non-word element, is one kept piece in front of
      the pieces of what follows it. */
  lemma WordThenRest<T>(isWord: T -> bool, keep: seq<T> -> bool, w: seq<T>, t: seq<T>)
    requires w != [] && keep(w) && !keep([])
    requires forall k :: 0 <= k < |w| ==> isWord(w[k])
    requires t == [] || !isWord(t[0])
    ensures Filter(keep, SplitRuns(isWord, w + t)) == [w] + Filter(keep, SplitRuns(isWord, t))
  {
    var s := w + t;
    if t == [] {
      assert s == w;
      assert PrefixLength(isWord, w) == |w|;
      assert SplitRuns(isWord, w) == [w];
      FilterKeptHead(keep, w, []);
      assert SplitRuns(isWord, t) == [[]];
      FilterRefusedHead(keep, [], []);
    } else {
      forall k | 0 <= k < |w| ensures isWord(s[k]) {
        assert s[k] == w[k];
      }
      assert s[|w|] == t[0];
      SplitRunsAfterWord(isWord, s, |w|);
      assert s[..|w|] == w;
      assert s[|w|..] == t;
      var m := NonPrefixLength(isWord, t);
      var rest := SkipNon(isWord, t);
      assert t == t[..m] + rest;
      LeadingRunAddsNothing(isWord, keep, t[..m], rest);
      FilterKeptHead(keep, w, SplitRuns(isWord, rest));
    }
  }

  /** After the first word, an interleaving goes on with nothing or with a non-word
      element. */
  lemma InterleaveTailStart<T>(isWord: T -> bool, words: seq<seq<T>>, seps: seq<seq<T>>)
    requires |seps| == |words| + 1 && words != []
    requires forall i, k :: 0 <= i < |seps| && 0 <= k < |seps[i]| ==> !isWord(seps[i][k])
    requires forall i :: 0 < i < |words| ==> seps[i] != []
    ensures var tail := Interleave(words[1..], seps[1..]);
      tail == [] || !isWord(tail[0])
  {
    var tail := Interleave(words[1..], seps[1..]);
    if |words| > 1 {
      assert seps[1] != [];
      assert tail == seps[1] + (words[1] + Interleave(words[2..], seps[2..]));
      assert tail[0] == seps[1][0];
    } else {
      assert tail == seps[1];
      if tail != [] { assert tail[0] == seps[1][0]; }
    }
  }

  /** One step of `SplitRunsInterleave`: the leading run adds nothing and the first word
      is the first kept piece. */
  lemma SplitRunsInterleaveStep<T>(isWord: T -> bool, keep: seq<T> -> bool,
                                   words: seq<seq<T>>, seps: seq<seq<T>>)
    requires |seps| == |words| + 1 && words != [] && !keep([])
    requires words[0] != [] && keep(words[0])
    requires forall k :: 0 <= k < |words[0]| ==> isWord(words[0][k])
    requires forall i, k :: 0 <= i < |seps| && 0 <= k < |seps[i]| ==> !isWord(seps[i][k])
    requires forall i :: 0 < i < |words| ==> seps[i] != []
    ensures Filter(keep, SplitRuns(isWord, Interleave(words, seps)))
      == [words[0]] + Filter(keep, SplitRuns(isWord, Interleave(words[1..], seps[1..])))
  {
    var tail := Interleave(words[1..], seps[1..]);
    assert Interleave(words, seps) == seps[0] + (words[0] + tail);
    InterleaveTailStart(isWord, words, seps);
    LeadingRunAddsNothing(isWord, keep, seps[0], words[0] + tail);
    WordThenRest(isWord, keep, words[0], tail);
  }

  /** Splitting words separated by runs of non-word elements, and dropping the pieces
      `keep` refuses (the empty ones), gives the words back: a run of any length ends a
      word, and runs at either end leave no word. */
  lemma {:induction false} SplitRunsInterleave<T>(isWord: T -> bool, keep: seq<T> -> bool,
                                                  words: seq<seq<T>>, seps: seq<seq<T>>)
    requires |seps| == |words| + 1 && !keep([])
    requires forall i :: 0 <= i < |words| ==> words[i] != [] && keep(words[i])
    requires forall i, k :: 0 <= i < |words| && 0 <= k < |words[i]| ==> isWord(words[i][k])
    requires forall i, k :: 0 <= i < |seps| && 0 <= k < |seps[i]| ==> !isWord(seps[i][k])
    requires forall i :: 0 < i < |words| ==> seps[i] != []
    ensures Filter(keep, SplitRuns(isWord, Interleave(words, seps))) == words
  {
    if words == [] {
      assert seps[0] + [] == seps[0];
      LeadingRunAddsNothing(isWord, keep, seps[0], []);
      assert SplitRuns(isWord, []) == [[]];
      FilterRefusedHead(keep, [], []);
    } else {
      SplitRunsInterleaveStep(isWord, keep, words, seps);
      SplitRunsInterleave(isWord, keep, words[1..], seps[1..]);
      assert words == [words[0]] + words[1..];
    }
  }

  /** Every element of an interleaving is an element of a word or of a separator run. */
  lemma {:induction false} InterleaveElements<T>(q: T -> bool, words: seq<seq<T>>, seps: seq<seq<T>>)
    requires |seps| == |words| + 1
    requires forall i, k :: 0 <= i < |words| && 0 <= k < |words[i]| ==> q(words[i][k])
    requires forall i, k :: 0 <= i < |seps| && 0 <= k < |seps[i]| ==> q(seps[i][k])
    ensures forall k :: 0 <= k < |Interleave(words, seps)| ==> q(Interleave(words, seps)[k])
  {
    if words != [] {
      InterleaveElements(q, words[1..], seps[1..]);
      var s := Interleave(words, seps);
      var tail := Interleave(words[1..], seps[1..]);
      assert s == seps[0] + words[0] + tail;
      forall k | 0 <= k < |s| ensures q(s[k]) {
        if k < |seps[0]| { assert s[k] == seps[0][k]; }
        else if k < |seps[0]| + |words[0]| { assert s[k] == words[0][k - |seps[0]|]; }
        else { assert s[k] == tail[k - |seps[0]| - |words[0]|]; }
      }
    }
  }
}
