/**
 Which segments a key prefix lets a search skip (`prefix_overlaps` and the source prefix taken by
 `read_candidate_batches` in crates/index/src/segment.rs).
 */
module PrefixScan {
  import opened Wrappers
  import opened Grams
  import opened Sorting

  type Key = seq<Byte>

  const BANG: Byte := 33
  const SLASH: Byte := 47

  predicate StartsWith(s: Key, prefix: Key) { |prefix| <= |s| && s[..|prefix|] == prefix }

  predicate AtMost(a: Key, b: Key) { !LexLess(b, a) }

  // ---------------------------------------------------------------------------------------------
  // The least string above every prefixed key

  /** Empty when there is none. */
  function Above(p: Key): Key {
    if p == [] then []
    else
      var rest := Above(p[1..]);
      if rest != [] then [p[0]] + rest
      else if p[0] == 255 then [] else [p[0] + 1]
  }

  lemma {:induction false} AboveDrops(p: Key)
    ensures Above(p + [255]) == Above(p)
  {
    if p == [] {
      assert Above([255][1..]) == [];
    } else {
      AboveDrops(p[1..]);
      assert (p + [255])[1..] == p[1..] + [255];
    }
  }

  lemma {:induction false} AboveSteps(p: Key, b: Byte)
    requires b < 255
    ensures Above(p + [b]) == p + [b + 1]
  {
    if p == [] {
      assert [b][1..] == [];
    } else {
      AboveSteps(p[1..], b);
      assert (p + [b])[1..] == p[1..] + [b];
      assert p == [p[0]] + p[1..];
    }
  }

  /** Comparing with the bound tells prefixed keys from greater ones. */
  lemma {:induction false} AboveSeparates(p: Key, s: Key)
    ensures StartsWith(s, p) ==> AtMost(p, s)
    ensures Above(p) == [] || LexLess(s, Above(p)) <==> LexLess(s, p) || StartsWith(s, p)
    decreases |p|
  {
    if p != [] && s != [] {
      AboveSeparates(p[1..], s[1..]);
      HeadStarts(s, p);
      AboveHead(p);
    }
  }

  lemma HeadStarts(s: Key, p: Key)
    requires s != [] && p != []
    ensures StartsWith(s, p) <==> s[0] == p[0] && StartsWith(s[1..], p[1..])
  {
    assert s == [s[0]] + s[1..] && p == [p[0]] + p[1..];
    if StartsWith(s, p) {
      assert s[1..][..|p| - 1] == s[..|p|][1..];
    }
    if s[0] == p[0] && StartsWith(s[1..], p[1..]) {
      assert s[..|p|] == [s[0]] + s[1..][..|p| - 1];
    }
  }

  lemma AboveHead(p: Key)
    requires p != []
    ensures Above(p[1..]) != [] ==> Above(p) != [] && Above(p)[0] == p[0] && Above(p)[1..] == Above(p[1..])
    ensures Above(p[1..]) == [] && p[0] < 255 ==> Above(p) == [p[0] + 1]
  {
  }

  lemma NothingAbove()
    ensures Above([]) == []
  {
  }

  /** `prefix_overlaps`: exactly whether some key with the prefix lies between the segment's bounds. */
  method PrefixOverlaps(minKey: Key, maxKey: Key, prefix: Key) returns (r: bool)
    requires AtMost(minKey, maxKey)
    ensures r <==> Overlaps(minKey, maxKey, prefix)
  {
    hide LexLess, Above, Overlaps;
    OverlapsIff(minKey, maxKey, prefix);
    NothingAbove();
    if LexLess(maxKey, prefix) {
      return false;
    }
    var upper := prefix;
    while upper != []
      invariant Above(upper) == Above(prefix)
      decreases |upper|
    {
      var n := |upper| - 1;
      assert upper == upper[..n] + [upper[n]];
      if upper[n] == 255 {
        AboveDrops(upper[..n]);
        upper := upper[..n];
      } else {
        AboveSteps(upper[..n], upper[n]);
        assert Above(prefix) == upper[..n] + [upper[n] + 1];
        upper := upper[..n] + [upper[n] + 1];
        return LexLess(minKey, upper);
      }
    }
    return true;
  }

  ghost predicate Overlaps(minKey: Key, maxKey: Key, prefix: Key) {
    exists s :: StartsWith(s, prefix) && AtMost(minKey, s) && AtMost(s, maxKey)
  }

  lemma OverlapsIff(minKey: Key, maxKey: Key, prefix: Key)
    requires AtMost(minKey, maxKey)
    ensures Overlaps(minKey, maxKey, prefix) <==>
              !LexLess(maxKey, prefix) && (Above(prefix) == [] || LexLess(minKey, Above(prefix)))
  {
    LexTotal();
    hide LexLess;
    AboveSeparates(prefix, minKey);
    if !LexLess(maxKey, prefix) && (Above(prefix) == [] || LexLess(minKey, Above(prefix))) {
      var s := if StartsWith(minKey, prefix) then minKey else prefix;
      assert StartsWith(s, prefix) && AtMost(minKey, s) && AtMost(s, maxKey);
    } else if Overlaps(minKey, maxKey, prefix) {
      var s :| StartsWith(s, prefix) && AtMost(minKey, s) && AtMost(s, maxKey);
      AboveSeparates(prefix, s);
      assert false;
    }
  }

  // ---------------------------------------------------------------------------------------------
  // Members of archives

  /** A document is a source object, or a member inside one. */
  datatype DocKey = DocKey(source: Key, member: Option<Key>)

  /** The key a search prefix is matched against. */
  function Display(k: DocKey): Key {
    if k.member.None? then k.source else k.source + [BANG, SLASH] + k.member.value
  }

  /** The text before the first `!/`, or all of it. */
  function SourcePrefix(p: Key): Key {
    if |p| < 2 then p
    else if p[0] == BANG && p[1] == SLASH then []
    else [p[0]] + SourcePrefix(p[1..])
  }

  /** A prefix that stops between the two bytes of the first separator. */
  predicate CutsSeparator(p: Key) {
    p != [] && p[|p| - 1] == BANG && SourcePrefix(p) == p
  }

  lemma {:induction false} SourcePrefixOf(p: Key)
    ensures StartsWith(p, SourcePrefix(p))
    ensures SourcePrefix(p) != p ==>
              |SourcePrefix(p)| + 2 <= |p| && p[|SourcePrefix(p)|] == BANG && p[|SourcePrefix(p)| + 1] == SLASH
    ensures forall k :: 0 <= k && k + 1 < |p| && p[k] == BANG && p[k + 1] == SLASH ==> |SourcePrefix(p)| <= k
    decreases |p|
  {
    if |p| >= 2 && !(p[0] == BANG && p[1] == SLASH) {
      var rest := p[1..];
      SourcePrefixOf(rest);
      assert p == [p[0]] + rest;
      HeadStarts(p, SourcePrefix(p));
      assert SourcePrefix(p)[1..] == SourcePrefix(rest);
      forall k | 0 <= k && k + 1 < |p| && p[k] == BANG && p[k + 1] == SLASH ensures |SourcePrefix(p)| <= k {
        assert rest[k - 1] == BANG && rest[k] == SLASH;
      }
    }
  }

  lemma SameBytes(s: Key, prefix: Key)
    requires StartsWith(s, prefix)
    ensures forall i :: 0 <= i < |prefix| ==> prefix[i] == s[i]
  {
  }

  /** The source prefix keeps a matching document's source, except where it cuts its separator in two. */
  lemma SourcePrefixKeeps(k: DocKey, prefix: Key)
    requires StartsWith(Display(k), prefix)
    ensures StartsWith(k.source, SourcePrefix(prefix)) <==>
              !(CutsSeparator(prefix) && k.member.Some? && prefix == k.source + [BANG])
  {
    SourcePrefixOf(prefix);
    var n, sp, shown := |k.source|, SourcePrefix(prefix), Display(k);
    assert shown[..n] == k.source;
    assert sp == prefix[..|sp|] == shown[..|sp|];
    if |sp| <= n {
      assert sp == k.source[..|sp|];
    } else {
      assert k.member.Some? && shown[n] == BANG && shown[n + 1] == SLASH;
      SameBytes(shown, prefix);
      assert prefix == shown[..n] + [shown[n]];
    }
  }

  /** No segment that holds a matching document is skipped, whatever its key bounds. */
  ghost predicate NeverSkips(prefix: Key) {
    forall minKey: Key, maxKey: Key, k: DocKey ::
      AtMost(minKey, k.source) && AtMost(k.source, maxKey) && StartsWith(Display(k), prefix) ==>
        Overlaps(minKey, maxKey, SourcePrefix(prefix))
  }

  /**
   A prefix is safe for skipping segments exactly when it does not end in the `!` of its first `!/`.
   A prefix such as `bundle.zip!` matches `bundle.zip!/a.log`, yet the segment holding it may be skipped.
   */
  lemma SkipsExactly(prefix: Key)
    ensures NeverSkips(prefix) <==> !CutsSeparator(prefix)
  {
    hide LexLess, SourcePrefix;
    if CutsSeparator(prefix) {
      var n := |prefix| - 1;
      var k := DocKey(prefix[..n], Some([]));
      assert prefix == prefix[..n] + [BANG];
      assert Display(k)[..n + 1] == prefix;
      CutIsSkipped(prefix[..n]);
      LexTotal();
      assert AtMost(k.source, k.source) && AtMost(k.source, k.source) && StartsWith(Display(k), prefix);
      assert !Overlaps(k.source, k.source, SourcePrefix(prefix));
    } else {
      forall minKey: Key, maxKey: Key, k: DocKey |
        AtMost(minKey, k.source) && AtMost(k.source, maxKey) && StartsWith(Display(k), prefix)
        ensures Overlaps(minKey, maxKey, SourcePrefix(prefix))
      {
        SourcePrefixKeeps(k, prefix);
      }
    }
  }

  /** No key with the cut prefix lies in a segment whose only key is the source itself. */
  lemma CutIsSkipped(source: Key)
    ensures !Overlaps(source, source, source + [BANG])
  {
    LexTotal();
    hide LexLess;
    forall s | StartsWith(s, source + [BANG]) && AtMost(source, s) && AtMost(s, source) ensures false {
    }
  }
}
