/**
 * The dotted-path resolver of src/utils/index.js: split a selector on a
 * separator, then look the segments up one after another, starting at the
 * root object, failing on the first segment whose lookup is undefined.
 */
module Utils {
  import opened JsValue

  // ---------------------------------------------------------------------
  // String.prototype.split with a non-empty separator
  // ---------------------------------------------------------------------

  /** `sep` occurs in `s` starting at position `i`. */
  predicate OccursAt(s: string, sep: string, i: nat)
  {
    i + |sep| <= |s| && s[i..i + |sep|] == sep
  }

  /** The first occurrence of `sep` in `s` at or after `from`. */
  function IndexFrom(s: string, sep: string, from: nat): (r: Option<nat>)
    requires from <= |s|
    ensures r.Some? ==> from <= r.value && OccursAt(s, sep, r.value)
    ensures r.Some? ==> forall k :: from <= k < r.value ==> !OccursAt(s, sep, k)
    ensures r.None? ==> forall k :: from <= k <= |s| ==> !OccursAt(s, sep, k)
    decreases |s| - from
  {
    if from + |sep| > |s| then None
    else if s[from..from + |sep|] == sep then Some(from)
    else IndexFrom(s, sep, from + 1)
  }

  /** `s.indexOf(sep)`, with "not found" as `None`. */
  function IndexOf(s: string, sep: string): (r: Option<nat>)
    ensures r.Some? ==> OccursAt(s, sep, r.value)
    ensures r.Some? ==> forall k :: 0 <= k < r.value ==> !OccursAt(s, sep, k)
    ensures r.None? ==> forall k :: 0 <= k <= |s| ==> !OccursAt(s, sep, k)
  {
    IndexFrom(s, sep, 0)
  }

  /**
   * `s.split(sep)`: the pieces between the non-overlapping occurrences of
   * `sep`, found left to right. No piece contains the separator.
   */
  function Split(s: string, sep: string): (parts: seq<string>)
    requires sep != ""
    ensures |parts| >= 1
    decreases |s|
  {
    match IndexOf(s, sep)
    case None => [s]
    case Some(i) => [s[..i]] + Split(s[i + |sep|..], sep)
  }

  /** No piece of a split contains the separator. */
  lemma {:induction false} SplitPiecesFree(s: string, sep: string)
    requires sep != ""
    ensures forall j :: 0 <= j < |Split(s, sep)| ==> IndexOf(Split(s, sep)[j], sep).None?
    decreases |s|
  {
    if IndexOf(s, sep).Some? {
      var i := IndexOf(s, sep).value;
      var head := s[..i];
      forall k | 0 <= k <= |head| ensures !OccursAt(head, sep, k) {
        if OccursAt(head, sep, k) {
          assert s[k..k + |sep|] == head[k..k + |sep|];
          assert OccursAt(s, sep, k);
        }
      }
      SplitPiecesFree(s[i + |sep|..], sep);
    }
  }

  /** `parts.join(sep)`, the inverse of `Split`. */
  function Join(parts: seq<string>, sep: string): string
    requires |parts| >= 1
    decreases |parts|
  {
    if |parts| == 1 then parts[0] else parts[0] + sep + Join(parts[1..], sep)
  }

  /** One step of `Split`: the piece before the first separator, then the rest. */
  lemma SplitStep(s: string, sep: string)
    requires sep != "" && IndexOf(s, sep).Some?
    ensures var i := IndexOf(s, sep).value;
      && Split(s, sep) == [s[..i]] + Split(s[i + |sep|..], sep)
      && s == s[..i] + sep + s[i + |sep|..]
  {
    var i := IndexOf(s, sep).value;
    assert OccursAt(s, sep, i);
    assert s == s[..i] + s[i..i + |sep|] + s[i + |sep|..];
  }

  /** Joining the pieces of a split gives back the string that was split. */
  lemma {:induction false} JoinSplit(s: string, sep: string)
    requires sep != ""
    ensures Join(Split(s, sep), sep) == s
    decreases |s|
  {
    if IndexOf(s, sep).Some? {
      var i := IndexOf(s, sep).value;
      SplitStep(s, sep);
      JoinSplit(s[i + |sep|..], sep);
    }
  }

  /** Joining two lists is joining each and putting the separator between. */
  lemma JoinAppend(a: seq<string>, b: seq<string>, sep: string)
    requires |a| >= 1 && |b| >= 1
    ensures Join(a + b, sep) == Join(a, sep) + sep + Join(b, sep)
    decreases |a|
  {
    var ab := a + b;
    assert ab[0] == a[0];
    if |a| > 1 {
      assert ab[1..] == a[1..] + b;
      JoinAppend(a[1..], b, sep);
      calc {
        Join(ab, sep);
        a[0] + sep + Join(a[1..] + b, sep);
        a[0] + sep + (Join(a[1..], sep) + sep + Join(b, sep));
        (a[0] + sep + Join(a[1..], sep)) + sep + Join(b, sep);
      }
    } else {
      assert ab[1..] == b;
    }
  }

  /** With a one-character separator, occurrence is just character equality. */
  lemma OccursAtChar(s: string, c: char, k: nat)
    ensures OccursAt(s, [c], k) <==> k < |s| && s[k] == c
  {
    if k < |s| {
      assert s[k..k + 1] == [s[k]];
    }
  }

  lemma IndexOfCharNone(s: string, c: char)
    ensures IndexOf(s, [c]).None? <==> c !in s
  {
    if c in s {
      var k :| 0 <= k < |s| && s[k] == c;
      OccursAtChar(s, c, k);
    } else if IndexOf(s, [c]).Some? {
      OccursAtChar(s, c, IndexOf(s, [c]).value);
    }
  }

  /** The first separator after a separator-free prefix is the one that follows it. */
  lemma IndexOfAfterFree(x: string, c: char, y: string)
    requires c !in x
    ensures IndexOf(x + [c] + y, [c]) == Some(|x|)
  {
    var s := x + [c] + y;
    OccursAtChar(s, c, |x|);
    var r := IndexOf(s, [c]);
    if r.Some? {
      OccursAtChar(s, c, r.value);
    }
  }

  /** Splitting `x + sep + y` on a one-character `sep`, with `x` free of it. */
  lemma SplitAfterFree(x: string, c: char, y: string)
    requires c !in x
    ensures Split(x + [c] + y, [c]) == [x] + Split(y, [c])
  {
    var s := x + [c] + y;
    IndexOfAfterFree(x, c, y);
    SplitStep(s, [c]);
    assert s[..|x|] == x;
    assert s[|x| + 1..] == y;
  }

  lemma SplitFree(x: string, c: char)
    requires c !in x
    ensures Split(x, [c]) == [x]
  {
    IndexOfCharNone(x, c);
  }

  /**
   * With a one-character separator, splitting undoes joining pieces that do
   * not contain it.
   */
  lemma {:induction false} SplitJoin(parts: seq<string>, c: char)
    requires |parts| >= 1
    requires forall j :: 0 <= j < |parts| ==> c !in parts[j]
    ensures Split(Join(parts, [c]), [c]) == parts
    decreases |parts|
  {
    if |parts| == 1 {
      SplitFree(parts[0], c);
    } else {
      SplitJoin(parts[1..], c);
      SplitAfterFree(parts[0], c, Join(parts[1..], [c]));
      assert parts == [parts[0]] + parts[1..];
    }
  }

  /**
   * With a one-character separator, splitting a concatenation around the
   * separator is the concatenation of the two splits.
   */
  lemma SplitConcat(p: string, c: char, q: string)
    ensures Split(p + [c] + q, [c]) == Split(p, [c]) + Split(q, [c])
  {
    var a, b := Split(p, [c]), Split(q, [c]);
    JoinSplit(p, [c]);
    JoinSplit(q, [c]);
    JoinAppend(a, b, [c]);
    PiecesWithoutChar(p, c);
    PiecesWithoutChar(q, c);
    assert forall j :: 0 <= j < |a + b| ==> c !in (a + b)[j] by {
      forall j | 0 <= j < |a + b| ensures c !in (a + b)[j] {
        if j < |a| { assert (a + b)[j] == a[j]; } else { assert (a + b)[j] == b[j - |a|]; }
      }
    }
    SplitJoin(a + b, c);
  }

  lemma PiecesWithoutChar(s: string, c: char)
    ensures forall j :: 0 <= j < |Split(s, [c])| ==> c !in Split(s, [c])[j]
  {
    SplitPiecesFree(s, [c]);
    forall j | 0 <= j < |Split(s, [c])| ensures c !in Split(s, [c])[j] {
      IndexOfCharNone(Split(s, [c])[j], c);
    }
  }

  /** The position of the first `c` in `s`. */
  function FirstChar(s: string, c: char): (i: nat)
    requires c in s
    ensures i < |s| && s[i] == c && c !in s[..i]
  {
    if s[0] == c then 0
    else
      assert c in s[1..];
      var j := FirstChar(s[1..], c);
      assert s[..j + 1] == [s[0]] + s[1..][..j];
      j + 1
  }

  /** `s` with every `c` replaced by `d`. */
  function ReplaceChar(s: string, c: char, d: char): (r: string)
    ensures |r| == |s|
    ensures forall i :: 0 <= i < |s| ==> r[i] == if s[i] == c then d else s[i]
  {
    seq(|s|, i requires 0 <= i < |s| => if s[i] == c then d else s[i])
  }

  /**
   * Choosing another one-character separator that the selector does not
   * otherwise use, and writing it where the old one stood, splits into the
   * same segments.
   */
  lemma {:induction false} SplitRenamedSeparator(s: string, c: char, d: char)
    requires d !in s
    ensures Split(ReplaceChar(s, c, d), [d]) == Split(s, [c])
    decreases |s|
  {
    if c !in s {
      ReplaceAbsent(s, c, d);
      SplitFree(s, c);
      SplitFree(s, d);
    } else {
      var i := FirstChar(s, c);
      var x, y := s[..i], s[i + 1..];
      assert s == x + [c] + y;
      ReplaceAround(x, c, d, y);
      assert d !in x && d !in y;
      SplitAfterFree(x, c, y);
      SplitAfterFree(x, d, ReplaceChar(y, c, d));
      SplitRenamedSeparator(y, c, d);
    }
  }

  lemma ReplaceAbsent(s: string, c: char, d: char)
    requires c !in s
    ensures ReplaceChar(s, c, d) == s
  {
  }

  lemma ReplaceAround(x: string, c: char, d: char, y: string)
    requires c !in x
    ensures ReplaceChar(x + [c] + y, c, d) == x + [d] + ReplaceChar(y, c, d)
  {
    var s, t := x + [c] + y, x + [d] + ReplaceChar(y, c, d);
    forall k | 0 <= k < |s| ensures ReplaceChar(s, c, d)[k] == t[k] {
      if k < |x| {
        assert s[k] == x[k];
      } else if k > |x| {
        assert s[k] == y[k - |x| - 1];
      }
    }
  }

  // ---------------------------------------------------------------------
  // dotCaseToObjectProperty
  // ---------------------------------------------------------------------

  /**
   * The `reduce` over the segments: look each segment up in the value reached
   * so far and throw, naming the selector and the segment, when the lookup is
   * undefined.
   */
  function ResolveParts(acc: Value, parts: seq<string>, selector: string): (r: Result<Value>)
    ensures parts == [] ==> r == Ok(acc)
    ensures r.Ok? && parts != [] ==> r.value != Undefined
    ensures r.Err? ==> r.error.PathNotFound? && r.error.selector == selector && r.error.segment in parts
    decreases |parts|
  {
    if parts == [] then Ok(acc)
    else
      var next := Get(acc, parts[0]);
      if next == Undefined then Err(PathNotFound(selector, parts[0]))
      else ResolveParts(next, parts[1..], selector)
  }

  /**
   * `dotCaseToObjectProperty(obj, selector, separator = '.')`. A successful
   * result is never undefined, and a failure names the whole selector and
   * one of its segments.
   */
  function DotCaseToObjectProperty(obj: Value, selector: string, separator: string := "."): (r: Result<Value>)
    requires separator != ""
    ensures r.Ok? ==> r.value != Undefined
    ensures r.Err? ==> r.error.PathNotFound? && r.error.selector == selector
    ensures r.Err? ==> r.error.segment in Split(selector, separator)
  {
    ResolveParts(obj, Split(selector, separator), selector)
  }

  /**
   * Resolution is compositional: resolving `a + b` is resolving `a` and then
   * resolving `b` from there, and a failure within `a` stops it.
   */
  lemma {:induction false} ResolveConcat(acc: Value, a: seq<string>, b: seq<string>, selector: string)
    ensures ResolveParts(acc, a + b, selector) ==
      match ResolveParts(acc, a, selector)
      case Ok(v) => ResolveParts(v, b, selector)
      case Err(e) => Err(e)
    decreases |a|
  {
    if a == [] {
      assert a + b == b;
    } else {
      assert (a + b)[0] == a[0];
      assert (a + b)[1..] == a[1..] + b;
      var next := Get(acc, a[0]);
      if next != Undefined {
        ResolveConcat(next, a[1..], b, selector);
      }
    }
  }

  /**
   * If resolution fails, it fails at a segment whose prefix resolved and whose
   * own lookup is undefined: the first missing segment.
   */
  lemma {:induction false} ResolveFailsAtFirstMissing(acc: Value, parts: seq<string>, selector: string)
    returns (j: nat)
    requires ResolveParts(acc, parts, selector).Err?
    ensures j < |parts|
    ensures ResolveParts(acc, parts, selector).error == PathNotFound(selector, parts[j])
    ensures ResolveParts(acc, parts[..j], selector).Ok?
    ensures Get(ResolveParts(acc, parts[..j], selector).value, parts[j]) == Undefined
    decreases |parts|
  {
    var next := Get(acc, parts[0]);
    if next == Undefined {
      j := 0;
    } else {
      var k := ResolveFailsAtFirstMissing(next, parts[1..], selector);
      j := k + 1;
      assert parts[..j][1..] == parts[1..][..k];
    }
  }

  /**
   * Conversely, once a prefix resolves and the next segment is missing, the
   * whole resolution fails naming that segment.
   */
  lemma ResolveMissingFails(acc: Value, parts: seq<string>, selector: string, j: nat)
    requires j < |parts|
    requires ResolveParts(acc, parts[..j], selector).Ok?
    requires Get(ResolveParts(acc, parts[..j], selector).value, parts[j]) == Undefined
    ensures ResolveParts(acc, parts, selector) == Err(PathNotFound(selector, parts[j]))
  {
    assert parts == parts[..j] + parts[j..];
    ResolveConcat(acc, parts[..j], parts[j..], selector);
  }

  /** Only the error message depends on the selector that is reported. */
  lemma {:induction false} ResolveRenamedSelector(acc: Value, parts: seq<string>, s1: string, s2: string)
    ensures ResolveParts(acc, parts, s1).Ok? == ResolveParts(acc, parts, s2).Ok?
    ensures ResolveParts(acc, parts, s1).Ok? ==> ResolveParts(acc, parts, s1).value == ResolveParts(acc, parts, s2).value
    ensures ResolveParts(acc, parts, s1).Err? ==> ResolveParts(acc, parts, s1).error.segment == ResolveParts(acc, parts, s2).error.segment
    decreases |parts|
  {
    if parts != [] && Get(acc, parts[0]) != Undefined {
      ResolveRenamedSelector(Get(acc, parts[0]), parts[1..], s1, s2);
    }
  }

  /** A selector without the separator is a single property lookup on the root. */
  lemma SingleSegment(obj: Value, selector: string, separator: string)
    requires separator != ""
    requires IndexOf(selector, separator).None?
    ensures DotCaseToObjectProperty(obj, selector, separator) ==
      if Get(obj, selector) == Undefined then Err(PathNotFound(selector, selector))
      else Ok(Get(obj, selector))
  {
    assert Split(selector, separator) == [selector];
  }

  /**
   * A custom one-character separator behaves as '.' does: writing it where
   * '.' stood resolves to the same value, or fails at the same segment.
   */
  lemma CustomSeparator(obj: Value, selector: string, sep: char)
    requires sep !in selector
    ensures var dotted := DotCaseToObjectProperty(obj, selector);
      var custom := DotCaseToObjectProperty(obj, ReplaceChar(selector, '.', sep), [sep]);
      && dotted.Ok? == custom.Ok?
      && (dotted.Ok? ==> dotted.value == custom.value)
      && (dotted.Err? ==> dotted.error.segment == custom.error.segment)
  {
    SplitRenamedSeparator(selector, '.', sep);
    ResolveRenamedSelector(obj, Split(selector, "."), selector, ReplaceChar(selector, '.', sep));
  }

  /** `r` with the selector its error names replaced by `selector`. */
  function Reported(r: Result<Value>, selector: string): Result<Value>
  {
    match r
    case Ok(v) => Ok(v)
    case Err(e) => if e.PathNotFound? then Err(PathNotFound(selector, e.segment)) else Err(e)
  }

  /**
   * Resolving `p + sep + q` resolves `p`, then `q` from the value found; a
   * failure in `p` stops it. Errors name the whole selector.
   */
  lemma ResolveSelectorConcat(obj: Value, p: string, sep: char, q: string)
    ensures var full := p + [sep] + q;
      DotCaseToObjectProperty(obj, full, [sep]) ==
        match DotCaseToObjectProperty(obj, p, [sep])
        case Err(e) => Reported(Err(e), full)
        case Ok(v) => Reported(DotCaseToObjectProperty(v, q, [sep]), full)
  {
    var full := p + [sep] + q;
    SplitConcat(p, sep, q);
    ResolveConcat(obj, Split(p, [sep]), Split(q, [sep]), full);
    var left := ResolveParts(obj, Split(p, [sep]), full);
    ResolveRenamedSelector(obj, Split(p, [sep]), full, p);
    if left.Ok? {
      ResolveRenamedSelector(left.value, Split(q, [sep]), full, q);
    }
  }

  // ---------------------------------------------------------------------
  // The resolver's unit-test object
  // ---------------------------------------------------------------------

  /** `{ a: { x: 'foo', b: { c: { d: 42 } } } }` */
  function Sample(): Value
  {
    Obj(map["a" := Obj(map["x" := Str("foo"),
                           "b" := Obj(map["c" := Obj(map["d" := Num(42)])])])])
  }

  lemma SampleResolvesX()
    ensures DotCaseToObjectProperty(Sample(), "a.x") == Ok(Str("foo"))
  {
    assert "a.x" == "a" + ['.'] + "x";
    SplitAfterFree("a", '.', "x");
    SplitFree("x", '.');
  }

  lemma SampleResolvesD()
    ensures DotCaseToObjectProperty(Sample(), "a.b.c.d") == Ok(Num(42))
  {
    assert "a.b.c.d" == Join(["a", "b", "c", "d"], ".");
    SplitJoin(["a", "b", "c", "d"], '.');
    SampleWalk("a.b.c.d");
  }

  lemma SampleMissesC()
    ensures DotCaseToObjectProperty(Sample(), "a.b._c._d") == Err(PathNotFound("a.b._c._d", "_c"))
  {
    assert "a.b._c._d" == Join(["a", "b", "_c", "_d"], ".");
    SplitJoin(["a", "b", "_c", "_d"], '.');
    SampleMiss("a.b._c._d");
  }

  lemma SampleMiss(selector: string)
    ensures ResolveParts(Sample(), ["a", "b", "_c", "_d"], selector) == Err(PathNotFound(selector, "_c"))
  {
    var b := Get(Sample(), "a");
    var c := Get(b, "b");
    assert ["a", "b", "_c", "_d"][1..] == ["b", "_c", "_d"];
    assert ["b", "_c", "_d"][1..] == ["_c", "_d"];
    assert ResolveParts(c, ["_c", "_d"], selector) == Err(PathNotFound(selector, "_c"));
    assert ResolveParts(b, ["b", "_c", "_d"], selector) == Err(PathNotFound(selector, "_c"));
  }

  lemma SampleCustomSeparator()
    ensures DotCaseToObjectProperty(Sample(), "a*b*c*d", "*") == Ok(Num(42))
  {
    assert "a*b*c*d" == Join(["a", "b", "c", "d"], "*");
    SplitJoin(["a", "b", "c", "d"], '*');
    SampleWalk("a*b*c*d");
  }

  lemma SampleWalk(selector: string)
    ensures ResolveParts(Sample(), ["a", "b", "c", "d"], selector) == Ok(Num(42))
  {
    var b := Get(Sample(), "a");
    var c := Get(b, "b");
    var d := Get(c, "c");
    assert ["a", "b", "c", "d"][1..] == ["b", "c", "d"];
    assert ["b", "c", "d"][1..] == ["c", "d"];
    assert ["c", "d"][1..] == ["d"];
    assert ResolveParts(d, ["d"], selector) == Ok(Num(42));
    assert ResolveParts(c, ["c", "d"], selector) == Ok(Num(42));
    assert ResolveParts(b, ["b", "c", "d"], selector) == Ok(Num(42));
  }
}
