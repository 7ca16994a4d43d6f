/**
 * The result-matching helpers of `ValidationTestExtension`: the property-name normaliser, the
 * match predicate with its wildcard, the decisions of the `Should...` assertions and of the
 * `When`/`WhenAll`/`Only` continuations, and the error messages they throw with.
 *
 * An assertion's result is an `Outcome`: it returns a value, or it throws. The continuation a
 * helper returns (`TestValidationContinuation`, whose source is not part of this model) is
 * represented by the failures its predicate matched and those it did not.
 */
module TestHelper {
  import opened Wrappers
  import opened Strings
  import opened Results
  import opened Contexts

  /** `MatchAnyFailure`: the property name that every failure matches. */
  const MatchAnyFailure := "__FV__ANY"

  // ---------------------------------------------------------------------------------------
  // The property-name normaliser

  /** `line` holds a `[` with a `]` somewhere after it. */
  predicate HasBracketPair(line: string)
  {
    exists i, j :: 0 <= i < j < |line| && line[i] == '[' && line[j] == ']'
  }

  /**
   * `s` holds a `[` followed, on the same line, by a `]`: what the pattern `\[.*\]` needs,
   * since `.` does not match a line break.
   */
  predicate BracketPairWithinLine(s: string)
  {
    exists i, j :: 0 <= i < j < |s| && s[i] == '[' && s[j] == ']' && '\n' !in s[i..j]
  }

  /**
   * The pattern `\[.*\]` over one line: the leftmost `[` that has a `]` after it is the first
   * `[`, and the greedy `.*` runs to the last `]`; after that match no `]` is left.
   */
  function NormalizeLine(line: string): string
  {
    var f := IndexOf(line, '[');
    var l := LastIndexOf(line, ']');
    if f < l then line[..f] + line[l + 1..] else line
  }

  /** `NormalizePropertyName`: `Regex.Replace(name, @"\[.*\]", "")`, line by line. */
  function NormalizePropertyName(name: string): string
    decreases |name|
  {
    var k := IndexOf(name, '\n');
    if k == |name| then NormalizeLine(name)
    else NormalizeLine(name[..k]) + "\n" + NormalizePropertyName(name[k + 1..])
  }

  /** A line holds a bracket pair exactly when its first `[` comes before its last `]`. */
  lemma PairIffOrdered(line: string)
    ensures HasBracketPair(line) <==> IndexOf(line, '[') < LastIndexOf(line, ']')
  {
    var f := IndexOf(line, '[');
    var l := LastIndexOf(line, ']');
    if HasBracketPair(line) {
      var i, j :| 0 <= i < j < |line| && line[i] == '[' && line[j] == ']';
      assert f <= i;
      assert j <= l;
    }
    if f < l {
      assert line[f] == '[' && line[l] == ']';
    }
  }

  /** On one line, the span from the first `[` to the last `]` is deleted, if there is one. */
  lemma NormalizeLineSpan(line: string)
    ensures IndexOf(line, '[') < LastIndexOf(line, ']') ==>
      && NormalizeLine(line) == line[..IndexOf(line, '[')] + line[LastIndexOf(line, ']') + 1..]
      && |NormalizeLine(line)| < |line|
    ensures IndexOf(line, '[') >= LastIndexOf(line, ']') ==> NormalizeLine(line) == line
  {
  }

  /** What one line's normalisation leaves has no bracket pair and no line break. */
  lemma NormalizeLineClean(line: string)
    requires '\n' !in line
    ensures !HasBracketPair(NormalizeLine(line))
    ensures '\n' !in NormalizeLine(line)
  {
    var f := IndexOf(line, '[');
    var l := LastIndexOf(line, ']');
    NormalizeLineSpan(line);
    if f < l {
      CutIsClean(line, f, l);
    } else {
      PairIffOrdered(line);
    }
  }

  /**
   * Cutting from a position with no `[` before it to a position with no `]` after it leaves
   * no bracket pair.
   */
  lemma CutIsClean(line: string, f: nat, l: nat)
    requires f < l < |line|
    requires forall i :: 0 <= i < f ==> line[i] != '['
    requires forall i :: l < i < |line| ==> line[i] != ']'
    requires '\n' !in line
    ensures !HasBracketPair(line[..f] + line[l + 1..])
    ensures '\n' !in line[..f] + line[l + 1..]
  {
    var r := line[..f] + line[l + 1..];
    forall i, j | 0 <= i < j < |r| && r[i] == '['
      ensures r[j] != ']'
    {
      assert i >= f;
      assert r[j] == line[j - f + l + 1];
    }
    forall i | 0 <= i < |r| ensures r[i] != '\n' {
      if i < f {
        assert r[i] == line[i];
      } else {
        assert r[i] == line[i - f + l + 1];
      }
    }
  }

  /** Without a line break, a bracket pair within a line is just a bracket pair. */
  lemma OneLinePair(line: string)
    requires '\n' !in line
    ensures BracketPairWithinLine(line) <==> HasBracketPair(line)
  {
    if HasBracketPair(line) {
      var i, j :| 0 <= i < j < |line| && line[i] == '[' && line[j] == ']';
      assert '\n' !in line[i..j] by {
        forall k | 0 <= k < j - i ensures line[i..j][k] != '\n' {
          assert line[i..j][k] == line[i + k];
        }
      }
    }
  }

  /** A pair within a line of `a + "\n" + b` lies within a line of `a` or within a line of `b`. */
  lemma PairAcrossBreak(a: string, b: string)
    requires '\n' !in a
    ensures BracketPairWithinLine(a + "\n" + b) <==> HasBracketPair(a) || BracketPairWithinLine(b)
  {
    if BracketPairWithinLine(a + "\n" + b) {
      PairFromJoined(a, b);
    }
    if HasBracketPair(a) {
      PairFromFirst(a, b);
    }
    if BracketPairWithinLine(b) {
      PairFromRest(a, b);
    }
  }

  lemma PairFromJoined(a: string, b: string)
    requires '\n' !in a
    requires BracketPairWithinLine(a + "\n" + b)
    ensures HasBracketPair(a) || BracketPairWithinLine(b)
  {
    var s := a + "\n" + b;
    var n := |a|;
    var i, j :| 0 <= i < j < |s| && s[i] == '[' && s[j] == ']' && '\n' !in s[i..j];
    forall m | i <= m < j ensures s[m] != '\n' {
      assert s[i..j][m - i] == s[m];
    }
    assert s[n] == '\n';
    if j < n {
      assert a[i] == '[' && a[j] == ']';
    } else {
      assert i > n;
      assert b[i - n - 1] == '[' && b[j - n - 1] == ']';
      assert b[i - n - 1..j - n - 1] == s[i..j];
    }
  }

  lemma PairFromFirst(a: string, b: string)
    requires '\n' !in a
    requires HasBracketPair(a)
    ensures BracketPairWithinLine(a + "\n" + b)
  {
    var s := a + "\n" + b;
    var i, j :| 0 <= i < j < |a| && a[i] == '[' && a[j] == ']';
    assert s[i] == '[' && s[j] == ']';
    assert s[i..j] == a[i..j];
    OneLinePair(a);
    assert '\n' !in a[i..j];
  }

  lemma PairFromRest(a: string, b: string)
    requires BracketPairWithinLine(b)
    ensures BracketPairWithinLine(a + "\n" + b)
  {
    var s := a + "\n" + b;
    var n := |a|;
    var i, j :| 0 <= i < j < |b| && b[i] == '[' && b[j] == ']' && '\n' !in b[i..j];
    assert s[i + n + 1] == '[' && s[j + n + 1] == ']';
    assert s[i + n + 1..j + n + 1] == b[i..j];
  }

  /** The name splits at its first line break into a line and the rest. */
  lemma SplitAtBreak(name: string, k: nat)
    requires k == IndexOf(name, '\n') < |name|
    ensures name == name[..k] + "\n" + name[k + 1..]
    ensures '\n' !in name[..k]
  {
    SplitAtFirst(name, '\n', k);
  }

  lemma SplitAtFirst(s: string, c: char, k: nat)
    requires k < |s| && s[k] == c
    requires forall i :: 0 <= i < k ==> s[i] != c
    ensures s == s[..k] + [c] + s[k + 1..]
    ensures c !in s[..k]
  {
    assert s[..k + 1] == s[..k] + [c];
    assert s == s[..k + 1] + s[k + 1..];
  }

  /**
   * The normaliser leaves a name unchanged exactly when no line of it holds a `[` followed by
   * a `]`; otherwise the name gets strictly shorter.
   */
  lemma {:induction false} NormalizeUnchangedIff(name: string)
    ensures NormalizePropertyName(name) == name <==> !BracketPairWithinLine(name)
    ensures BracketPairWithinLine(name) ==> |NormalizePropertyName(name)| < |name|
    ensures |NormalizePropertyName(name)| <= |name|
    decreases |name|
  {
    var k := IndexOf(name, '\n');
    if k == |name| {
      assert '\n' !in name;
      NormalizeLineSpan(name);
      PairIffOrdered(name);
      OneLinePair(name);
    } else {
      SplitAtBreak(name, k);
      var line, rest := name[..k], name[k + 1..];
      NormalizeLineSpan(line);
      PairIffOrdered(line);
      NormalizeUnchangedIff(rest);
      PairAcrossBreak(line, rest);
      var r := NormalizePropertyName(name);
      assert r == NormalizeLine(line) + "\n" + NormalizePropertyName(rest);
      if r == name {
        assert |NormalizeLine(line)| == |line|;
        assert NormalizeLine(line) == line && NormalizePropertyName(rest) == rest by {
          assert r[..k] == NormalizeLine(line) && name[..k] == line;
          assert r[k + 1..] == NormalizePropertyName(rest);
        }
      }
    }
  }

  /** Normalising twice is normalising once. */
  lemma {:induction false} NormalizeIdempotent(name: string)
    ensures NormalizePropertyName(NormalizePropertyName(name)) == NormalizePropertyName(name)
  {
    NormalizeClean(name);
    NormalizeUnchangedIff(NormalizePropertyName(name));
  }

  /** What the normaliser leaves has no bracket pair within a line. */
  lemma {:induction false} NormalizeClean(name: string)
    ensures !BracketPairWithinLine(NormalizePropertyName(name))
    decreases |name|
  {
    var k := IndexOf(name, '\n');
    if k == |name| {
      assert '\n' !in name;
      NormalizeLineClean(name);
      OneLinePair(NormalizeLine(name));
    } else {
      SplitAtBreak(name, k);
      var line, rest := name[..k], name[k + 1..];
      NormalizeLineClean(line);
      NormalizeClean(rest);
      PairAcrossBreak(NormalizeLine(line), NormalizePropertyName(rest));
    }
  }

  /**
   * A name of one line with one bracketed part loses everything from its first `[` to its
   * last `]`: `Orders[0].ProductName` becomes `Orders.ProductName`, and (greedily)
   * `A[0].B[1].C` becomes `A.C`.
   */
  lemma NormalizeOneLine(a: string, inner: string, b: string)
    requires '[' !in a && ']' !in b
    requires '\n' !in a && '\n' !in inner && '\n' !in b
    ensures NormalizePropertyName(a + "[" + inner + "]" + b) == a + b
  {
    var s := a + "[" + inner + "]" + b;
    OneLineParts(a, inner, b);
    assert NormalizePropertyName(s) == NormalizeLine(s);
  }

  /** Where the brackets and line breaks of `a[inner]b` are. */
  lemma OneLineParts(a: string, inner: string, b: string)
    requires '[' !in a && ']' !in b
    requires '\n' !in a && '\n' !in inner && '\n' !in b
    ensures var s := a + "[" + inner + "]" + b;
      && IndexOf(s, '[') == |a|
      && LastIndexOf(s, ']') == |a| + |inner| + 1
      && IndexOf(s, '\n') == |s|
      && s[..|a|] == a
      && s[|a| + |inner| + 2..] == b
  {
    var s := a + "[" + inner + "]" + b;
    var head := a + "[" + inner + "]";
    assert s == a + ("[" + inner + "]" + b);
    IndexOfAfter(a, "[" + inner + "]" + b, '[');
    assert s == head + b;
    LastIndexOfBefore(head, b, ']');
    assert '\n' !in s;
    IndexOfAbsent(s, '\n');
  }

  /** Decimal digits are neither brackets nor line breaks. */
  lemma DigitsArePlain(n: nat)
    ensures '[' !in NatToString(n) && ']' !in NatToString(n) && '\n' !in NatToString(n)
  {
    var s := NatToString(n);
    assert forall k :: 0 <= k < |s| ==> IsDigit(s[k]);
  }

  /** The path of a collection element's member loses the index: `Orders[0].ProductName` becomes `Orders.ProductName`. */
  lemma NormalizeElementPath(collection: string, index: nat, member: string)
    requires '[' !in collection && '\n' !in collection
    requires ']' !in member && '\n' !in member
    ensures NormalizePropertyName(Indexed(collection, index) + "." + member) == collection + "." + member
  {
    DigitsArePlain(index);
    IndexedShape(collection, NatToString(index), member);
    NormalizeOneLine(collection, NatToString(index), "." + member);
  }

  lemma IndexedShape(collection: string, digits: string, member: string)
    ensures collection + "[" + digits + "]" + "." + member == collection + "[" + digits + "]" + ("." + member)
    ensures collection + ("." + member) == collection + "." + member
  {
  }

  /**
   * The match is greedy: in `A[0].B[1].C` everything from the first `[` to the last `]` goes,
   * leaving `A.C`.
   */
  lemma NormalizeIsGreedy(outer: string, i: nat, inner: string, j: nat, member: string)
    requires '[' !in outer && '\n' !in outer && '\n' !in inner
    requires ']' !in member && '\n' !in member
    ensures NormalizePropertyName(Indexed(outer, i) + "." + Indexed(inner, j) + "." + member) == outer + "." + member
  {
    var middle := GreedyShape(outer, i, inner, j, member);
    NormalizeOneLine(outer, middle, "." + member);
  }

  /** `a[x].b[y].m` is `a[` + a middle without line breaks + `].m`. */
  lemma GreedyShape(outer: string, i: nat, inner: string, j: nat, member: string) returns (middle: string)
    requires '\n' !in inner
    ensures '\n' !in middle
    ensures Indexed(outer, i) + "." + Indexed(inner, j) + "." + member == outer + "[" + middle + "]" + ("." + member)
  {
    DigitsArePlain(i);
    DigitsArePlain(j);
    var di, dj := NatToString(i), NatToString(j);
    middle := di + "]." + inner + "[" + dj;
    assert '\n' !in middle by {
      assert '\n' !in di + "].";
      assert '\n' !in di + "]." + inner;
      assert '\n' !in di + "]." + inner + "[";
    }
    SeqAssoc(outer, di, inner, dj, member);
  }

  /** `a[x].b[y].m` regrouped as `a[` + (`x].b[y`) + `]` + `.m`. */
  lemma SeqAssoc(outer: string, di: string, inner: string, dj: string, member: string)
    ensures outer + "[" + di + "]" + "." + (inner + "[" + dj + "]") + "." + member
      == outer + "[" + (di + "]." + inner + "[" + dj) + "]" + ("." + member)
  {
  }

  // ---------------------------------------------------------------------------------------
  // Matching a failure against a property name

  /** `string.IsNullOrEmpty`. */
  predicate IsNullOrEmpty(s: Option<string>)
  {
    s.None? || s.value == ""
  }

  /** The text a nullable string contributes to an interpolated string (null gives ""). */
  function Text(s: Option<string>): string
  {
    if s.Some? then s.value else ""
  }

  /**
   * The predicate both `ShouldHaveValidationError` and `ShouldNotHaveValidationError` apply:
   * the (optionally normalised) name equals `propertyName`, or both are null or empty, or
   * `propertyName` is the wildcard. A null name is never equal to a normalised one here; that
   * the normaliser throws on a null name is `Verdict`'s business.
   */
  predicate Matches(f: ValidationFailure, propertyName: Option<string>, normalize: bool)
  {
    || (if normalize
        then f.propertyName.Some? && Some(NormalizePropertyName(f.propertyName.value)) == propertyName
        else f.propertyName == propertyName)
    || (IsNullOrEmpty(f.propertyName) && IsNullOrEmpty(propertyName))
    || propertyName == Some(MatchAnyFailure)
  }

  /** Evaluating the predicate on one failure: it holds, it fails, or the normaliser throws. */
  datatype Verdict = Match | NoMatch | Fault

  /** The normaliser is run first, so a null name under normalisation throws before anything else is looked at. */
  function VerdictOf(f: ValidationFailure, propertyName: Option<string>, normalize: bool): Verdict
  {
    if normalize && f.propertyName.None? then Fault
    else if Matches(f, propertyName, normalize) then Match
    else NoMatch
  }

  /** Every failure matches the wildcard, unless the normaliser throws on it first. */
  lemma WildcardMatchesAll(f: ValidationFailure, normalize: bool)
    ensures VerdictOf(f, Some(MatchAnyFailure), normalize) == if normalize && f.propertyName.None? then Fault else Match
  {
  }

  /** Under normalisation, a collection element's member matches the path without the index. */
  lemma NormalizedElementMatches(collection: string, index: nat, member: string, f: ValidationFailure)
    requires '[' !in collection && '\n' !in collection
    requires ']' !in member && '\n' !in member
    requires f.propertyName == Some(Indexed(collection, index) + "." + member)
    ensures VerdictOf(f, Some(collection + "." + member), true) == Match
  {
    NormalizeElementPath(collection, index, member);
  }

  // ---------------------------------------------------------------------------------------
  // Outcomes and continuations

  /** The exceptions the helpers throw. */
  datatype Exception =
    | ValidationTestException(message: string, errors: Option<seq<ValidationFailure>>)
    | ArgumentNullException

  datatype Outcome<T> = Returned(value: T) | Threw(exception: Exception)

  /** A continuation: the failures its predicate matched, and the rest, each in their original order. */
  datatype Continuation = Continuation(matched: seq<ValidationFailure>, unmatched: seq<ValidationFailure>)

  /** `Where`: the failures that satisfy `p`, in order. */
  function Filter(failures: seq<ValidationFailure>, p: ValidationFailure -> bool): (r: seq<ValidationFailure>)
    ensures |r| <= |failures|
    ensures forall f :: f in r <==> f in failures && p(f)
    decreases |failures|
  {
    if |failures| == 0 then []
    else (if p(failures[0]) then [failures[0]] else []) + Filter(failures[1..], p)
  }

  /**
   * `Where` keeps order and every copy: filtering a concatenation is concatenating the
   * filtered parts (and `FilterSingleton` says what one failure contributes).
   */
  lemma {:induction false} FilterAppend(a: seq<ValidationFailure>, b: seq<ValidationFailure>, p: ValidationFailure -> bool)
    ensures Filter(a + b, p) == Filter(a, p) + Filter(b, p)
    decreases |a|
  {
    if |a| == 0 {
      assert a + b == b;
    } else {
      assert (a + b)[1..] == a[1..] + b;
      FilterAppend(a[1..], b, p);
    }
  }

  /** A single failure is kept exactly when it passes. */
  lemma FilterSingleton(f: ValidationFailure, p: ValidationFailure -> bool)
    ensures Filter([f], p) == if p(f) then [f] else []
  {
    assert [f][1..] == [];
  }

  /**
   * Each failure keeps its place: the kept failures are those kept before position `k`, then
   * the failure at `k` if it passes, then those kept after it.
   */
  lemma FilterAround(failures: seq<ValidationFailure>, p: ValidationFailure -> bool, k: nat)
    requires k < |failures|
    ensures Filter(failures, p)
      == Filter(failures[..k], p) + (if p(failures[k]) then [failures[k]] else []) + Filter(failures[k + 1..], p)
  {
    var pre, mid, post := failures[..k], [failures[k]], failures[k + 1..];
    SplitAround(failures, k);
    FilterAppend(pre, mid + post, p);
    FilterAppend(mid, post, p);
    FilterSingleton(failures[k], p);
    ConcatAssoc(Filter(pre, p), Filter(mid, p), Filter(post, p));
  }

  lemma SplitAround<T>(s: seq<T>, k: nat)
    requires k < |s|
    ensures s[..k] + ([s[k]] + s[k + 1..]) == s
  {
    assert [s[k]] + s[k + 1..] == s[k..];
  }

  lemma ConcatAssoc<T>(x: seq<T>, y: seq<T>, z: seq<T>)
    ensures x + (y + z) == x + y + z
  {
  }

  /** A filter keeps something exactly when some failure passes it. */
  lemma FilterNonEmpty(failures: seq<ValidationFailure>, p: ValidationFailure -> bool)
    ensures |Filter(failures, p)| > 0 <==> exists i :: 0 <= i < |failures| && p(failures[i])
  {
    if exists i :: 0 <= i < |failures| && p(failures[i]) {
      var i :| 0 <= i < |failures| && p(failures[i]);
      assert failures[i] in Filter(failures, p);
    } else {
      FilterNone(failures, p);
    }
  }

  /** A filter that nothing passes is empty. */
  lemma {:induction false} FilterNone(failures: seq<ValidationFailure>, p: ValidationFailure -> bool)
    requires forall i :: 0 <= i < |failures| ==> !p(failures[i])
    ensures Filter(failures, p) == []
    decreases |failures|
  {
    if |failures| > 0 {
      FilterNone(failures[1..], p);
    }
  }

  /** `TestValidationContinuation.Create(failures)`: every failure matched, as no predicate is applied yet. */
  function Create(failures: seq<ValidationFailure>): Continuation
  {
    Continuation(failures, [])
  }

  /** `Create(failures)` followed by `ApplyPredicate(p)`. */
  function Partition(failures: seq<ValidationFailure>, p: ValidationFailure -> bool): Continuation
  {
    Continuation(Filter(failures, p), Filter(failures, f => !p(f)))
  }

  /** A partition loses nothing: it splits the failures by `p` and keeps every one of them. */
  lemma {:induction false} PartitionSplits(failures: seq<ValidationFailure>, p: ValidationFailure -> bool)
    ensures var c := Partition(failures, p);
      && (forall f :: f in c.matched ==> p(f))
      && (forall f :: f in c.unmatched ==> !p(f))
      && multiset(c.matched) + multiset(c.unmatched) == multiset(failures)
    decreases |failures|
  {
    if |failures| > 0 {
      PartitionSplits(failures[1..], p);
      assert failures == [failures[0]] + failures[1..];
    }
  }

  // ---------------------------------------------------------------------------------------
  // The listings the messages are built from

  /** One line of a listing: `[i]: text` and a line break. */
  function Entry(i: nat, text: string): string
  {
    "[" + NatToString(i) + "]: " + text + "\n"
  }

  /** The listing the source's `for` loops build: one `Entry` per item, in index order. */
  function Listing(items: seq<string>): string
  {
    if |items| == 0 then "" else Listing(items[..|items| - 1]) + Entry(|items| - 1, items[|items| - 1])
  }

  /** The listing read from the front: entry `start`, then the listing of the rest from `start + 1`. */
  function ListingFrom(items: seq<string>, start: nat): string
    decreases |items|
  {
    if |items| == 0 then "" else Entry(start, items[0]) + ListingFrom(items[1..], start + 1)
  }

  /** The two readings agree: the listing is the entries of all items, the first one first. */
  lemma {:induction false} ListingIsEntriesInOrder(items: seq<string>)
    ensures Listing(items) == ListingFrom(items, 0)
    ensures |items| > 0 ==> Listing(items) == Entry(0, items[0]) + ListingFrom(items[1..], 1)
    decreases |items|
  {
    if |items| > 0 {
      ListingFromSnoc(items[..|items| - 1], items[|items| - 1], 0);
      assert items[..|items| - 1] + [items[|items| - 1]] == items;
      ListingIsEntriesInOrder(items[..|items| - 1]);
    }
  }

  lemma {:induction false} ListingFromSnoc(items: seq<string>, last: string, start: nat)
    ensures ListingFrom(items + [last], start) == ListingFrom(items, start) + Entry(start + |items|, last)
    decreases |items|
  {
    if |items| == 0 {
      assert items + [last] == [last];
    } else {
      assert (items + [last])[1..] == items[1..] + [last];
      ListingFromSnoc(items[1..], last, start + 1);
    }
  }

  /** Property names, as the `ShouldHaveValidationError` listing shows them. */
  function PropertyNames(failures: seq<ValidationFailure>): (r: seq<string>)
    ensures |r| == |failures| && forall i :: 0 <= i < |failures| ==> r[i] == NameText(failures[i])
  {
    seq(|failures|, i requires 0 <= i < |failures| => NameText(failures[i]))
  }

  /** Error messages, as the `ShouldNotHaveValidationError` and `Only` listings show them. */
  function Messages(failures: seq<ValidationFailure>): (r: seq<string>)
    ensures |r| == |failures| && forall i :: 0 <= i < |failures| ==> r[i] == failures[i].errorMessage
  {
    seq(|failures|, i requires 0 <= i < |failures| => failures[i].errorMessage)
  }

  /** `$"[{i}]: {text}\n"` appended for each item in index order gives `Listing`. */
  method BuildListing(items: seq<string>) returns (details: string)
    ensures details == Listing(items)
  {
    details := "";
    var i := 0;
    while i < |items|
      invariant 0 <= i <= |items|
      invariant details == Listing(items[..i])
    {
      assert items[..i + 1][..i] == items[..i];
      details := details + Entry(i, items[i]);
      i := i + 1;
    }
    assert items[..i] == items;
  }

  // ---------------------------------------------------------------------------------------
  // ShouldHaveValidationError

  /** The match predicate as the function value applied to the continuation. */
  function MatchPredicate(propertyName: Option<string>, normalize: bool): ValidationFailure -> bool
  {
    f => Matches(f, propertyName, normalize)
  }

  /**
   * `result.Any()` over the matched failures: the failures are examined in order until one
   * matches or the normaliser throws; `NoMatch` when neither happens.
   */
  function FirstVerdict(errors: seq<ValidationFailure>, propertyName: Option<string>, normalize: bool): Verdict
    decreases |errors|
  {
    if |errors| == 0 then NoMatch
    else if VerdictOf(errors[0], propertyName, normalize) != NoMatch then VerdictOf(errors[0], propertyName, normalize)
    else FirstVerdict(errors[1..], propertyName, normalize)
  }

  /** Some failure has a null property name. */
  predicate AnyNullName(errors: seq<ValidationFailure>)
  {
    exists i :: 0 <= i < |errors| && errors[i].propertyName.None?
  }

  /** Failure `i` is the first whose verdict is not `NoMatch`: it matches or throws, and every earlier one does neither. */
  predicate FirstDecisive(errors: seq<ValidationFailure>, propertyName: Option<string>, normalize: bool, i: int)
  {
    && 0 <= i < |errors|
    && VerdictOf(errors[i], propertyName, normalize) != NoMatch
    && forall j :: 0 <= j < i ==> VerdictOf(errors[j], propertyName, normalize) == NoMatch
  }

  /** The verdict on the first decisive failure is the verdict of the whole sequence. */
  lemma {:induction false} FirstVerdictAt(errors: seq<ValidationFailure>, propertyName: Option<string>, normalize: bool, i: nat)
    requires FirstDecisive(errors, propertyName, normalize, i)
    ensures FirstVerdict(errors, propertyName, normalize) == VerdictOf(errors[i], propertyName, normalize)
    decreases i
  {
    if i > 0 {
      assert VerdictOf(errors[0], propertyName, normalize) == NoMatch;
      forall j | 0 <= j < i - 1
        ensures VerdictOf(errors[1..][j], propertyName, normalize) == NoMatch
      {
        assert errors[1..][j] == errors[j + 1];
      }
      FirstVerdictAt(errors[1..], propertyName, normalize, i - 1);
    }
  }

  /**
   * Some failure matches or throws exactly when `FirstVerdict` is not `NoMatch`; when the
   * normaliser cannot throw, it is `Match` exactly when some failure matches.
   */
  lemma {:induction false} FirstVerdictFound(errors: seq<ValidationFailure>, propertyName: Option<string>, normalize: bool)
    ensures FirstVerdict(errors, propertyName, normalize) != NoMatch <==>
      exists i :: 0 <= i < |errors| && VerdictOf(errors[i], propertyName, normalize) != NoMatch
    ensures (!normalize || !AnyNullName(errors)) ==>
      (FirstVerdict(errors, propertyName, normalize) != Fault)
      && (FirstVerdict(errors, propertyName, normalize) == Match <==>
          exists i :: 0 <= i < |errors| && Matches(errors[i], propertyName, normalize))
    decreases |errors|
  {
    if |errors| > 0 {
      FirstVerdictFound(errors[1..], propertyName, normalize);
      if VerdictOf(errors[0], propertyName, normalize) == NoMatch {
        forall i | 1 <= i < |errors| ensures errors[i] == errors[1..][i - 1] { }
        if exists i :: 0 <= i < |errors| && VerdictOf(errors[i], propertyName, normalize) != NoMatch {
          var i :| 0 <= i < |errors| && VerdictOf(errors[i], propertyName, normalize) != NoMatch;
          assert errors[1..][i - 1] == errors[i];
        }
        if (!normalize || !AnyNullName(errors)) && exists i :: 0 <= i < |errors| && Matches(errors[i], propertyName, normalize) {
          var i :| 0 <= i < |errors| && Matches(errors[i], propertyName, normalize);
          assert errors[1..][i - 1] == errors[i];
        }
        if normalize && AnyNullName(errors[1..]) {
          var i :| 0 <= i < |errors[1..]| && errors[1..][i].propertyName.None?;
          assert errors[i + 1].propertyName.None?;
        }
      }
    }
  }

  /**
   * `FirstVerdict` is the verdict on the first failure whose verdict is not `NoMatch`; in
   * particular, when the normaliser cannot throw, it is `Match` exactly when some failure
   * matches.
   */
  lemma FirstVerdictDecides(errors: seq<ValidationFailure>, propertyName: Option<string>, normalize: bool)
    ensures FirstVerdict(errors, propertyName, normalize) != NoMatch <==>
      exists i :: 0 <= i < |errors| && VerdictOf(errors[i], propertyName, normalize) != NoMatch
    ensures forall i :: FirstDecisive(errors, propertyName, normalize, i) ==>
      FirstVerdict(errors, propertyName, normalize) == VerdictOf(errors[i], propertyName, normalize)
    ensures (!normalize || !AnyNullName(errors)) ==>
      (FirstVerdict(errors, propertyName, normalize) != Fault)
      && (FirstVerdict(errors, propertyName, normalize) == Match <==>
          exists i :: 0 <= i < |errors| && Matches(errors[i], propertyName, normalize))
  {
    FirstVerdictFound(errors, propertyName, normalize);
    forall i | FirstDecisive(errors, propertyName, normalize, i)
      ensures FirstVerdict(errors, propertyName, normalize) == VerdictOf(errors[i], propertyName, normalize)
    {
      FirstVerdictAt(errors, propertyName, normalize, i);
    }
  }


  /** The message thrown when no failure matched: the banner, then every failure's property name. */
  function MissingErrorMessage(errors: seq<ValidationFailure>, propertyName: Option<string>): string
  {
    var banner := "Expected a validation error for property " + Text(propertyName);
    if |errors| > 0 then banner + "\n----\nProperties with Validation Errors:\n" + Listing(PropertyNames(errors))
    else banner
  }

  /** What `ShouldHaveValidationError` returns or throws. */
  function HaveErrorOutcome(errors: seq<ValidationFailure>, propertyName: Option<string>, normalize: bool): Outcome<Continuation>
  {
    match FirstVerdict(errors, propertyName, normalize)
    case Match => Returned(Partition(errors, MatchPredicate(propertyName, normalize)))
    case Fault => Threw(ArgumentNullException)
    case NoMatch => Threw(ValidationTestException(MissingErrorMessage(errors, propertyName), None))
  }

  method ShouldHaveValidationError(errors: seq<ValidationFailure>, propertyName: Option<string>, normalize: bool)
    returns (outcome: Outcome<Continuation>)
    ensures outcome == HaveErrorOutcome(errors, propertyName, normalize)
  {
    var result := Partition(errors, MatchPredicate(propertyName, normalize));
    var verdict := FirstVerdict(errors, propertyName, normalize);
    if verdict == Match {
      return Returned(result);
    }
    if verdict == Fault {
      return Threw(ArgumentNullException);
    }
    var errorMessageBanner := "Expected a validation error for property " + Text(propertyName);
    var errorMessage := "";
    if |errors| > 0 {
      var errorMessageDetails := BuildListing(PropertyNames(errors));
      errorMessage := errorMessageBanner + "\n----\nProperties with Validation Errors:\n" + errorMessageDetails;
    } else {
      errorMessage := errorMessageBanner;
    }
    return Threw(ValidationTestException(errorMessage, None));
  }

  /**
   * Without a null name under normalisation, `ShouldHaveValidationError` returns exactly when
   * some failure matches, and then hands on a continuation holding the matching failures.
   * Otherwise it throws with `MissingErrorMessage`.
   */
  lemma HaveErrorDecision(errors: seq<ValidationFailure>, propertyName: Option<string>, normalize: bool)
    requires !normalize || !AnyNullName(errors)
    ensures HaveErrorOutcome(errors, propertyName, normalize).Returned?
      <==> exists i :: 0 <= i < |errors| && Matches(errors[i], propertyName, normalize)
    ensures HaveErrorOutcome(errors, propertyName, normalize).Returned? ==>
      HaveErrorOutcome(errors, propertyName, normalize).value.matched != []
    ensures HaveErrorOutcome(errors, propertyName, normalize).Threw? ==>
      HaveErrorOutcome(errors, propertyName, normalize).exception
        == ValidationTestException(MissingErrorMessage(errors, propertyName), None)
  {
    FirstVerdictDecides(errors, propertyName, normalize);
    if FirstVerdict(errors, propertyName, normalize) == Match {
      var i :| 0 <= i < |errors| && Matches(errors[i], propertyName, normalize);
      assert errors[i] in Filter(errors, MatchPredicate(propertyName, normalize));
    }
  }

  /**
   * The message lists every failure as `[i]: name` in index order after the banner, or is
   * the banner alone when there are no failures.
   */
  lemma MissingErrorListsAll(errors: seq<ValidationFailure>, propertyName: Option<string>)
    ensures |errors| == 0 ==> MissingErrorMessage(errors, propertyName) == "Expected a validation error for property " + Text(propertyName)
    ensures |errors| > 0 ==>
      MissingErrorMessage(errors, propertyName)
      == "Expected a validation error for property " + Text(propertyName)
         + "\n----\nProperties with Validation Errors:\n"
         + Entry(0, NameText(errors[0])) + ListingFrom(PropertyNames(errors)[1..], 1)
  {
    ListingIsEntriesInOrder(PropertyNames(errors));
  }

  // ---------------------------------------------------------------------------------------
  // ShouldNotHaveValidationError, ShouldNotHaveAnyValidationErrors, ShouldHaveAnyValidationError

  /** The message thrown when failures matched: the banner, then every matching failure's message. */
  function UnexpectedErrorsMessage(propertyName: Option<string>, failures: seq<ValidationFailure>): string
  {
    var banner := if propertyName == Some(MatchAnyFailure) then "Expected no validation errors"
                  else "Expected no validation errors for property " + Text(propertyName);
    banner + "\n----\nValidation Errors:\n" + Listing(Messages(failures))
  }

  /**
   * What `ShouldNotHaveValidationError` returns or throws. `ToList()` runs the predicate on
   * every failure, so the normaliser throws whenever some name is null.
   */
  function NoErrorOutcome(errors: seq<ValidationFailure>, propertyName: Option<string>, normalize: bool): Outcome<()>
  {
    if normalize && AnyNullName(errors) then Threw(ArgumentNullException)
    else
      var failures := Filter(errors, MatchPredicate(propertyName, normalize));
      if |failures| > 0 then Threw(ValidationTestException(UnexpectedErrorsMessage(propertyName, failures), Some(failures)))
      else Returned(())
  }

  method ShouldNotHaveValidationError(errors: seq<ValidationFailure>, propertyName: Option<string>, normalize: bool)
    returns (outcome: Outcome<()>)
    ensures outcome == NoErrorOutcome(errors, propertyName, normalize)
  {
    if normalize && AnyNullName(errors) {
      return Threw(ArgumentNullException);
    }
    var failures := Filter(errors, MatchPredicate(propertyName, normalize));
    if |failures| > 0 {
      var errorMessageBanner := "Expected no validation errors for property " + Text(propertyName);
      if propertyName == Some(MatchAnyFailure) {
        errorMessageBanner := "Expected no validation errors";
      }
      var errorMessageDetails := BuildListing(Messages(failures));
      var errorMessage := errorMessageBanner + "\n----\nValidation Errors:\n" + errorMessageDetails;
      return Threw(ValidationTestException(errorMessage, Some(failures)));
    }
    return Returned(());
  }

  /**
   * Without a null name under normalisation, `ShouldNotHaveValidationError` throws exactly
   * when some failure matches, and the exception carries exactly the matching failures, in
   * their original order: each matching failure in its place, and every copy of it.
   */
  lemma NoErrorDecision(errors: seq<ValidationFailure>, propertyName: Option<string>, normalize: bool)
    requires !normalize || !AnyNullName(errors)
    ensures NoErrorOutcome(errors, propertyName, normalize).Threw?
      <==> exists i :: 0 <= i < |errors| && Matches(errors[i], propertyName, normalize)
    ensures NoErrorOutcome(errors, propertyName, normalize).Threw? ==>
      var e := NoErrorOutcome(errors, propertyName, normalize).exception;
      && e.ValidationTestException?
      && e.errors == Some(Filter(errors, MatchPredicate(propertyName, normalize)))
      && (forall f :: f in e.errors.value <==> f in errors && Matches(f, propertyName, normalize))
      && (forall k :: 0 <= k < |errors| ==>
            e.errors.value == Filter(errors[..k], MatchPredicate(propertyName, normalize))
                              + (if Matches(errors[k], propertyName, normalize) then [errors[k]] else [])
                              + Filter(errors[k + 1..], MatchPredicate(propertyName, normalize)))
  {
    var p := MatchPredicate(propertyName, normalize);
    FilterNonEmpty(errors, p);
    assert forall i :: 0 <= i < |errors| ==> (p(errors[i]) <==> Matches(errors[i], propertyName, normalize));
    forall k | 0 <= k < |errors|
      ensures Filter(errors, p) == Filter(errors[..k], p) + (if p(errors[k]) then [errors[k]] else []) + Filter(errors[k + 1..], p)
    {
      FilterAround(errors, p, k);
    }
  }

  /** A predicate every failure satisfies filters nothing out. */
  lemma {:induction false} FilterKeepsAll(failures: seq<ValidationFailure>, p: ValidationFailure -> bool)
    requires forall i :: 0 <= i < |failures| ==> p(failures[i])
    ensures Filter(failures, p) == failures
    decreases |failures|
  {
    if |failures| > 0 {
      FilterKeepsAll(failures[1..], p);
    }
  }

  /** `ShouldNotHaveAnyValidationErrors`: the wildcard, with normalisation. */
  method ShouldNotHaveAnyValidationErrors(errors: seq<ValidationFailure>) returns (outcome: Outcome<()>)
    ensures AnyNullName(errors) ==> outcome == Threw(ArgumentNullException)
    ensures !AnyNullName(errors) ==>
      (outcome.Returned? <==> |errors| == 0)
      && (|errors| > 0 ==> outcome == Threw(ValidationTestException(
            "Expected no validation errors" + "\n----\nValidation Errors:\n" + Listing(Messages(errors)),
            Some(errors))))
  {
    outcome := ShouldNotHaveValidationError(errors, Some(MatchAnyFailure), true);
    if !AnyNullName(errors) {
      forall i | 0 <= i < |errors| ensures MatchPredicate(Some(MatchAnyFailure), true)(errors[i]) {
        WildcardMatchesAll(errors[i], true);
      }
      FilterKeepsAll(errors, MatchPredicate(Some(MatchAnyFailure), true));
      assert Filter(errors, MatchPredicate(Some(MatchAnyFailure), true)) == errors;
      assert |errors| > 0 ==> outcome == Threw(ValidationTestException(UnexpectedErrorsMessage(Some(MatchAnyFailure), errors), Some(errors)));
    }
  }

  /** `ShouldHaveAnyValidationError`: throws when there are no failures, else hands them all on. */
  function ShouldHaveAnyValidationError(errors: seq<ValidationFailure>): (outcome: Outcome<Continuation>)
    ensures outcome.Threw? <==> |errors| == 0
    ensures outcome.Returned? ==> outcome.value.matched == errors && outcome.value.unmatched == []
  {
    if |errors| == 0 then Threw(ValidationTestException("Expected at least one validation error, but none were found.", None))
    else Returned(Create(errors))
  }

  /**
   * `ShouldHaveAnyValidationError` and `ShouldNotHaveAnyValidationErrors` are complementary:
   * unless a null name makes the latter throw, exactly one of them throws.
   */
  lemma AnyErrorComplementary(errors: seq<ValidationFailure>)
    requires !AnyNullName(errors)
    ensures ShouldHaveAnyValidationError(errors).Threw? <==> NoErrorOutcome(errors, Some(MatchAnyFailure), true).Returned?
    ensures ShouldHaveAnyValidationError(errors).Returned? ==> ShouldHaveAnyValidationError(errors).value.matched == errors
  {
    forall i | 0 <= i < |errors| ensures MatchPredicate(Some(MatchAnyFailure), true)(errors[i]) {
      WildcardMatchesAll(errors[i], true);
    }
    FilterKeepsAll(errors, MatchPredicate(Some(MatchAnyFailure), true));
  }

  // ---------------------------------------------------------------------------------------
  // BuildErrorMessage, When, WhenAll, Only

  /**
   * `BuildErrorMessage` with its fixed placeholders: with both a template and a failure, the
   * template with `{Code}`, `{Message}`, `{State}` (empty for a null state) and `{Severity}`
   * replaced in that order, each in the text the previous one left; otherwise the default.
   */
  function BuildErrorMessage(failure: Option<ValidationFailure>, exceptionMessage: Option<string>, defaultMessage: string): string
  {
    if exceptionMessage.Some? && failure.Some? then
      var f := failure.value;
      var s1 := Replace(exceptionMessage.value, "{Code}", f.errorCode);
      var s2 := Replace(s1, "{Message}", f.errorMessage);
      var s3 := Replace(s2, "{State}", Text(f.customState));
      Replace(s3, "{Severity}", SeverityName(f.severity))
    else defaultMessage
  }

  /** Without a template or without a failure, the default message is used. */
  lemma BuildErrorMessageDefault(failure: Option<ValidationFailure>, exceptionMessage: Option<string>, defaultMessage: string)
    ensures exceptionMessage.None? || failure.None? ==> BuildErrorMessage(failure, exceptionMessage, defaultMessage) == defaultMessage
  {
  }

  /** Text without a `{` is left alone by a replacement of a placeholder. */
  lemma ReplacePlaceholderAbsent(s: string, pat: string, rep: string)
    requires |pat| > 0 && pat[0] == '{' && '{' !in s
    ensures Replace(s, pat, rep) == s
  {
    ReplaceSkip(s, [], pat, rep);
    assert s + [] == s;
  }

  /** A template without placeholders comes back unchanged. */
  lemma BuildErrorMessageNoPlaceholder(f: ValidationFailure, template: string, defaultMessage: string)
    requires '{' !in template
    ensures BuildErrorMessage(Some(f), Some(template), defaultMessage) == template
  {
    ReplacePlaceholderAbsent(template, "{Code}", f.errorCode);
    ReplacePlaceholderAbsent(template, "{Message}", f.errorMessage);
    ReplacePlaceholderAbsent(template, "{State}", Text(f.customState));
    ReplacePlaceholderAbsent(template, "{Severity}", SeverityName(f.severity));
  }

  /**
   * A placeholder `x` that differs from `pat` at some position `k` is passed over, and so is
   * the text without a `{` that follows it.
   */
  lemma PlaceholderPassedOver(x: string, b: string, pat: string, rep: string, k: nat)
    requires |pat| > 0 && pat[0] == '{'
    requires |x| > 0 && x[0] == '{' && '{' !in x[1..] && '{' !in b
    requires k < |x| && k < |pat| && x[k] != pat[k]
    ensures Replace(x + b, pat, rep) == x + b
  {
    var s := x + b;
    var tail := x[1..] + b;
    assert '{' !in tail;
    ReplacePlaceholderAbsent(tail, pat, rep);
    if |s| >= |pat| {
      assert s[..|pat|][k] == x[k];
      assert s[..|pat|] != pat;
      assert s[1..] == tail;
      assert [s[0]] + tail == s;
    }
  }

  /** The text before the placeholder, without a `{`, is passed over as well. */
  lemma PrefixPassedOver(a: string, x: string, b: string, pat: string, rep: string, k: nat)
    requires |pat| > 0 && pat[0] == '{'
    requires |x| > 0 && x[0] == '{' && '{' !in x[1..] && '{' !in a && '{' !in b
    requires k < |x| && k < |pat| && x[k] != pat[k]
    ensures Replace(a + (x + b), pat, rep) == a + (x + b)
  {
    ReplaceSkip(a, x + b, pat, rep);
    PlaceholderPassedOver(x, b, pat, rep, k);
  }

  /** The one placeholder `pat`, between texts without a `{`, is the only occurrence replaced. */
  lemma PlaceholderReplaced(a: string, pat: string, b: string, rep: string)
    requires |pat| > 0 && pat[0] == '{'
    requires '{' !in a && '{' !in b
    ensures Replace(a + (pat + b), pat, rep) == a + rep + b
  {
    ReplaceSkip(a, pat + b, pat, rep);
    ReplaceHere(pat, b, rep);
    ReplacePlaceholderAbsent(b, pat, rep);
  }

  /** Text without a `{` is left alone by every later placeholder. */
  lemma LaterPlaceholdersAbsent(s: string, f: ValidationFailure)
    requires '{' !in s
    ensures Replace(s, "{Message}", f.errorMessage) == s
    ensures Replace(s, "{State}", Text(f.customState)) == s
    ensures Replace(s, "{Severity}", SeverityName(f.severity)) == s
  {
    ReplacePlaceholderAbsent(s, "{Message}", f.errorMessage);
    ReplacePlaceholderAbsent(s, "{State}", Text(f.customState));
    ReplacePlaceholderAbsent(s, "{Severity}", SeverityName(f.severity));
  }

  /**
   * A template whose only placeholder is `{Code}` (as `WithErrorCode` builds) gets the
   * failure's error code in its place, when the code itself holds no `{`.
   */
  lemma BuildErrorMessageCode(f: ValidationFailure, a: string, b: string, defaultMessage: string)
    requires '{' !in a && '{' !in b && '{' !in f.errorCode
    ensures BuildErrorMessage(Some(f), Some(a + ("{Code}" + b)), defaultMessage) == a + f.errorCode + b
  {
    PlaceholderReplaced(a, "{Code}", b, f.errorCode);
    assert '{' !in a + f.errorCode + b;
    LaterPlaceholdersAbsent(a + f.errorCode + b, f);
  }

  /**
   * A template whose only placeholder is `{Message}` (as `WithErrorMessage` builds) gets the
   * failure's error message in its place, when the message itself holds no `{`.
   */
  lemma BuildErrorMessageMessage(f: ValidationFailure, a: string, b: string, defaultMessage: string)
    requires '{' !in a && '{' !in b && '{' !in f.errorMessage
    ensures BuildErrorMessage(Some(f), Some(a + ("{Message}" + b)), defaultMessage) == a + f.errorMessage + b
  {
    PrefixPassedOver(a, "{Message}", b, "{Code}", f.errorCode, 1);
    PlaceholderReplaced(a, "{Message}", b, f.errorMessage);
    var r := a + f.errorMessage + b;
    assert '{' !in r;
    ReplacePlaceholderAbsent(r, "{State}", Text(f.customState));
    ReplacePlaceholderAbsent(r, "{Severity}", SeverityName(f.severity));
  }

  /**
   * A template whose only placeholder is `{State}` (as `WithCustomState` builds) gets the
   * failure's custom state in its place, and nothing when the state is null.
   */
  lemma BuildErrorMessageState(f: ValidationFailure, a: string, b: string, defaultMessage: string)
    requires '{' !in a && '{' !in b && '{' !in Text(f.customState)
    ensures BuildErrorMessage(Some(f), Some(a + ("{State}" + b)), defaultMessage)
      == a + Text(f.customState) + b
    ensures f.customState.None? ==> BuildErrorMessage(Some(f), Some(a + ("{State}" + b)), defaultMessage) == a + b
  {
    StateMessage(f, a, b);
    assert a + "" + b == a + b;
  }

  /** The replacements of `BuildErrorMessageState`, step by step. */
  lemma StateMessage(f: ValidationFailure, a: string, b: string)
    requires '{' !in a && '{' !in b && '{' !in Text(f.customState)
    ensures Replace(Replace(Replace(Replace(a + ("{State}" + b), "{Code}", f.errorCode), "{Message}", f.errorMessage),
                            "{State}", Text(f.customState)), "{Severity}", SeverityName(f.severity))
      == a + Text(f.customState) + b
  {
    var state := Text(f.customState);
    PrefixPassedOver(a, "{State}", b, "{Code}", f.errorCode, 1);
    PrefixPassedOver(a, "{State}", b, "{Message}", f.errorMessage, 1);
    PlaceholderReplaced(a, "{State}", b, state);
    var r := a + state + b;
    assert '{' !in r;
    ReplacePlaceholderAbsent(r, "{Severity}", SeverityName(f.severity));
  }

  /**
   * A template whose only placeholder is `{Severity}` (as `WithSeverity` builds) gets the
   * failure's severity name in its place, and nothing else changes.
   */
  lemma BuildErrorMessageSeverity(f: ValidationFailure, a: string, b: string, defaultMessage: string)
    requires '{' !in a && '{' !in b
    ensures BuildErrorMessage(Some(f), Some(a + ("{Severity}" + b)), defaultMessage) == a + SeverityName(f.severity) + b
  {
    PrefixPassedOver(a, "{Severity}", b, "{Code}", f.errorCode, 1);
    PrefixPassedOver(a, "{Severity}", b, "{Message}", f.errorMessage, 1);
    PrefixPassedOver(a, "{Severity}", b, "{State}", Text(f.customState), 2);
    PlaceholderReplaced(a, "{Severity}", b, SeverityName(f.severity));
  }

  /** `FirstOrDefault()`. */
  function FirstOrDefault(failures: seq<ValidationFailure>): Option<ValidationFailure>
  {
    if |failures| == 0 then None else Some(failures[0])
  }

  /**
   * `When(predicate, exceptionMessage)`: the predicate is applied to the continuation's
   * matched failures; it throws when none satisfies it.
   */
  function When(c: Continuation, p: ValidationFailure -> bool, exceptionMessage: Option<string>): Outcome<Continuation>
  {
    var result := Partition(c.matched, p);
    if |result.matched| == 0 then
      Threw(ValidationTestException(
        BuildErrorMessage(FirstOrDefault(result.unmatched), exceptionMessage, "Expected validation error was not found"),
        None))
    else Returned(result)
  }

  /**
   * `WhenAll(predicate, exceptionMessage)`: the predicate is applied to the continuation's
   * matched failures; it throws, naming the first one that fails it, unless all satisfy it.
   */
  function WhenAll(c: Continuation, p: ValidationFailure -> bool, exceptionMessage: Option<string>): Outcome<Continuation>
  {
    var result := Partition(c.matched, p);
    if |result.unmatched| > 0 then
      Threw(ValidationTestException(
        BuildErrorMessage(Some(result.unmatched[0]), exceptionMessage, "Found an unexpected validation error"),
        None))
    else Returned(result)
  }

  /** The first failure of `failures` that `p` rejects is the first of `Filter(failures, not p)`. */
  lemma {:induction false} FirstRejected(failures: seq<ValidationFailure>, p: ValidationFailure -> bool, i: nat)
    requires i < |failures| && !p(failures[i])
    requires forall j :: 0 <= j < i ==> p(failures[j])
    ensures |Filter(failures, f => !p(f))| > 0 && Filter(failures, f => !p(f))[0] == failures[i]
    decreases i
  {
    if i > 0 {
      FirstRejected(failures[1..], p, i - 1);
    }
  }

  /**
   * `When` throws exactly when no matched failure satisfies the predicate, and then every
   * matched failure is unmatched, so the message is built from the first of them; otherwise
   * the new continuation holds exactly those that do, and the ones that did not are set apart.
   */
  lemma WhenDecision(c: Continuation, p: ValidationFailure -> bool, exceptionMessage: Option<string>)
    ensures When(c, p, exceptionMessage).Threw? <==> forall i :: 0 <= i < |c.matched| ==> !p(c.matched[i])
    ensures When(c, p, exceptionMessage).Returned? ==>
      && (forall f :: f in When(c, p, exceptionMessage).value.matched <==> f in c.matched && p(f))
      && (forall f :: f in When(c, p, exceptionMessage).value.unmatched <==> f in c.matched && !p(f))
    ensures When(c, p, exceptionMessage).Threw? ==>
      When(c, p, exceptionMessage).exception == ValidationTestException(
        BuildErrorMessage(FirstOrDefault(c.matched), exceptionMessage, "Expected validation error was not found"), None)
    ensures exceptionMessage.None? && When(c, p, exceptionMessage).Threw? ==>
      When(c, p, exceptionMessage).exception == ValidationTestException("Expected validation error was not found", None)
  {
    FilterNonEmpty(c.matched, p);
    if forall i :: 0 <= i < |c.matched| ==> !p(c.matched[i]) {
      FilterKeepsAll(c.matched, f => !p(f));
    }
  }

  /**
   * `WhenAll` throws exactly when some matched failure fails the predicate, and the message is
   * built from the first such failure; otherwise the continuation keeps all its failures.
   */
  lemma WhenAllDecision(c: Continuation, p: ValidationFailure -> bool, exceptionMessage: Option<string>)
    ensures WhenAll(c, p, exceptionMessage).Threw? <==> exists i :: 0 <= i < |c.matched| && !p(c.matched[i])
    ensures WhenAll(c, p, exceptionMessage).Returned? ==> WhenAll(c, p, exceptionMessage).value == Continuation(c.matched, [])
    ensures forall i :: 0 <= i < |c.matched| && !p(c.matched[i]) && (forall j :: 0 <= j < i ==> p(c.matched[j])) ==>
      WhenAll(c, p, exceptionMessage) == Threw(ValidationTestException(
        BuildErrorMessage(Some(c.matched[i]), exceptionMessage, "Found an unexpected validation error"), None))
  {
    if exists i :: 0 <= i < |c.matched| && !p(c.matched[i]) {
      var i :| 0 <= i < |c.matched| && !p(c.matched[i]);
      assert c.matched[i] in Filter(c.matched, f => !p(f));
    } else {
      FilterKeepsAll(c.matched, p);
      FilterNone(c.matched, f => !p(f));
    }
    forall i | 0 <= i < |c.matched| && !p(c.matched[i]) && (forall j :: 0 <= j < i ==> p(c.matched[j]))
      ensures WhenAll(c, p, exceptionMessage) == Threw(ValidationTestException(
        BuildErrorMessage(Some(c.matched[i]), exceptionMessage, "Found an unexpected validation error"), None))
    {
      FirstRejected(c.matched, p, i);
    }
  }

  /** The message `Only` throws: the banner, then every unmatched failure's message. */
  function OnlyMessage(unmatched: seq<ValidationFailure>): string
  {
    "Expected to have errors only matching specified conditions" + "\n----\nUnexpected Errors:\n" + Listing(Messages(unmatched))
  }

  /** `Only()`: throws when some failure was not matched, and otherwise returns its argument unchanged. */
  method Only(failures: Continuation) returns (outcome: Outcome<Continuation>)
    ensures outcome.Returned? <==> |failures.unmatched| == 0
    ensures outcome.Returned? ==> outcome.value == failures
    ensures outcome.Threw? ==> outcome.exception == ValidationTestException(OnlyMessage(failures.unmatched), None)
  {
    if |failures.unmatched| > 0 {
      var errorMessageBanner := "Expected to have errors only matching specified conditions";
      var unmatchedFailures := failures.unmatched;
      var errorMessageDetails := BuildListing(Messages(unmatchedFailures));
      var errorMessage := errorMessageBanner + "\n----\nUnexpected Errors:\n" + errorMessageDetails;
      return Threw(ValidationTestException(errorMessage, None));
    }
    return Returned(failures);
  }
}
