/** media/js/util.js: the in-place `Array.prototype.remove`, `pluralize`, and the
  * recursive label splitter `cleverSplit`. */
module UtilJs {
  import opened Wrappers
  import opened Text

  /** The JavaScript values these helpers are given: strings, numbers, and `undefined`
    * (which also fills the holes of a lengthened array). */
  datatype JsValue = JsStr(s: string) | JsNum(n: real) | Undefined

  // ---------------------------------------------------------------- pluralize

  /** GOODENERGY.Util.pluralize: the plural suffix, empty only for the number 1 under
    * strict equality (so the string "1" still gets an "s"). */
  function Pluralize(v: JsValue): (r: string)
    ensures r == [] <==> v == JsNum(1.0)
    ensures r != [] ==> r == "s"
  {
    if v != JsNum(1.0) then "s" else ""
  }

  // ---------------------------------------------------------------- Array.prototype.remove

  /** JavaScript truthiness of an optional number argument: undefined and 0 are false. */
  predicate TruthyArg(x: Option<int>)
  {
    x.Some? && x.value != 0
  }

  /** Where `slice((to || from) + 1 || length)` starts: -1 (a `to || from` of -1 makes the
    * argument 0, which is falsy) means the end; a negative start counts from the end;
    * the start is clamped to the array. */
  function RestStart(n: nat, from: int, to: Option<int>): (k: nat)
    ensures k <= n
  {
    var last := if TruthyArg(to) then to.value else from;
    var arg := if last + 1 == 0 then n else last + 1;
    if arg < 0 then (if n + arg < 0 then 0 else n + arg)
    else if arg > n then n else arg
  }

  /** The length the array is cut to: `from`, or `length + from` for a negative `from`. */
  function CutLength(n: nat, from: int): int
  {
    if from < 0 then n + from else from
  }

  /** The array after `remove(from, to)`: cut to the new length (padding with holes when
    * it grows), then the saved rest pushed back; a negative length raises RangeError. */
  function Removed(items: seq<JsValue>, from: int, to: Option<int>): (r: Result<seq<JsValue>>)
    ensures r.Err? <==> CutLength(|items|, from) < 0
    ensures r.Err? ==> r.error == RangeError
  {
    var rest := items[RestStart(|items|, from, to)..];
    var cut := CutLength(|items|, from);
    if cut < 0 then Err(RangeError)
    else if cut <= |items| then Ok(items[..cut] + rest)
    else Ok(items + seq(cut - |items|, _ => Undefined) + rest)
  }

  /** A JavaScript array that `remove` edits in place. */
  class JsArray {
    var items: seq<JsValue>

    constructor (items: seq<JsValue>)
      ensures this.items == items
    {
      this.items := items;
    }

    /** Array.prototype.remove: returns the new length, as `push` does. */
    method Remove(from: int, to: Option<int>) returns (r: Result<nat>)
      modifies this
      ensures Removed(old(items), from, to).Err? ==> r == Err(RangeError) && items == old(items)
      ensures Removed(old(items), from, to).Ok? ==> items == Removed(old(items), from, to).value && r == Ok(|items|)
    {
      var rest := items[RestStart(|items|, from, to)..];
      var length := CutLength(|items|, from);
      if length < 0 {
        return Err(RangeError);
      }
      if length <= |items| {
        items := items[..length];
      } else {
        items := items + seq(length - |items|, _ => Undefined);
      }
      items := items + rest;
      r := Ok(|items|);
    }
  }

  /** remove(i) on an index of the array drops exactly that element. */
  lemma RemoveOne(items: seq<JsValue>, i: int)
    requires 0 <= i < |items|
    ensures Removed(items, i, None) == Ok(items[..i] + items[i + 1..])
    ensures |Removed(items, i, None).value| == |items| - 1
  {
  }

  /** remove(from, to) with 0 <= from <= to < length drops the inclusive range. */
  lemma RemoveRange(items: seq<JsValue>, from: int, to: int)
    requires 0 <= from <= to < |items|
    ensures Removed(items, from, Some(to)) == Ok(items[..from] + items[to + 1..])
  {
  }

  /** remove(-1) drops the last element, and in general remove(-k) drops the k-th from
    * the end. */
  lemma RemoveFromEnd(items: seq<JsValue>, k: int)
    requires 1 <= k <= |items|
    ensures Removed(items, -k, None) == Ok(items[..|items| - k] + items[|items| - k + 1..])
  {
  }

  // ---------------------------------------------------------------- cleverSplit

  /** A character `$.trim` strips: the ECMAScript white space and line terminators. */
  predicate IsJsSpace(c: char)
  {
    c == ' ' || c == '\t' || c == '\n' || c == '\r' || c == '\U{000B}' || c == '\U{000C}'
    || c == '\U{00A0}' || c == '\U{1680}' || c == '\U{180E}' || ('\U{2000}' <= c <= '\U{200A}')
    || c == '\U{2028}' || c == '\U{2029}' || c == '\U{202F}' || c == '\U{205F}' || c == '\U{3000}'
    || c == '\U{FEFF}'
  }

  function TrimStart(s: string): (r: string)
    ensures |r| <= |s|
    ensures r == s[|s| - |r|..]
    ensures r == [] || !IsJsSpace(r[0])
  {
    if s != [] && IsJsSpace(s[0]) then TrimStart(s[1..]) else s
  }

  function TrimEnd(s: string): (r: string)
    ensures |r| <= |s|
    ensures r == s[..|r|]
    ensures r == [] || !IsJsSpace(r[|r| - 1])
  {
    if s != [] && IsJsSpace(s[|s| - 1]) then TrimEnd(s[..|s| - 1]) else s
  }

  /** $.trim: the string without its leading and trailing white space. */
  function Trim(s: string): (r: string)
    ensures |r| <= |s|
    ensures Trimmed(r)
  {
    var t := TrimStart(s);
    var r := TrimEnd(t);
    assert r != [] ==> r[0] == t[0];
    r
  }

  /** Neither end is white space. */
  predicate Trimmed(s: string)
  {
    s == [] || (!IsJsSpace(s[0]) && !IsJsSpace(s[|s| - 1]))
  }

  /** How far position q is from the middle. */
  function Dist(q: int, middle: int): nat
  {
    if q < middle then middle - q else q - middle
  }

  /** The split point cleverSplit's do-while search reaches: stepping outward from the
    * middle, at each step the left candidate before the right. With no space in reach,
    * which cleverSplit never asks, it gives the middle. */
  function Outward(t: string, middle: int, offset: nat): (p: int)
    decreases |t| - offset
  {
    if offset >= |t| then middle
    else if 0 <= middle - offset < |t| && t[middle - offset] == ' ' then middle - offset
    else if 0 <= middle + offset < |t| && t[middle + offset] == ' ' then middle + offset
    else Outward(t, middle, offset + 1)
  }

  /** No space lies at distance 1 .. offset-1 from the middle. */
  ghost predicate NoSpaceWithin(t: string, middle: int, offset: nat)
  {
    forall q :: 0 <= q < |t| && 0 < Dist(q, middle) < offset ==> t[q] != ' '
  }

  /** The outward search finds the space nearest the middle, the left one on a tie. */
  lemma {:induction false} OutwardNearest(t: string, middle: nat, offset: nat)
    requires middle < |t| && t[middle] != ' ' && ' ' in t
    requires 1 <= offset && NoSpaceWithin(t, middle, offset)
    ensures var p := Outward(t, middle, offset);
      0 <= p < |t| && t[p] == ' '
      && forall q :: 0 <= q < |t| && t[q] == ' ' ==> Dist(p, middle) < Dist(q, middle) || (Dist(p, middle) == Dist(q, middle) && p <= q)
    decreases |t| - offset
  {
    var q0 :| 0 <= q0 < |t| && t[q0] == ' ';
    assert Dist(q0, middle) >= offset;
    if 0 <= middle - offset < |t| && t[middle - offset] == ' ' {
    } else if 0 <= middle + offset < |t| && t[middle + offset] == ' ' {
    } else {
      assert Dist(q0, middle) > offset;
      OutwardNearest(t, middle, offset + 1);
    }
  }

  /** The do-while loop of cleverSplit for a string with a space but none in the middle.
    * The last character each side looked at is kept while the other side goes on,
    * as the JavaScript variables are. */
  method SplitPoint(t: string) returns (split: nat)
    requires ' ' in t && t[|t| / 2] != ' '
    ensures split == Outward(t, |t| / 2, 1)
    ensures split < |t| && t[split] == ' '
    ensures forall q :: 0 <= q < |t| && t[q] == ' ' ==>
      Dist(split, |t| / 2) < Dist(q, |t| / 2) || (Dist(split, |t| / 2) == Dist(q, |t| / 2) && split <= q)
  {
    var length := |t|;
    var middle := length / 2;
    OutwardNearest(t, middle, 1);
    var offset := 0;
    var before: Option<char> := None;
    var after: Option<char> := None;
    offset := offset + 1;
    if middle - offset >= 0 { before := Some(t[middle - offset]); }
    if middle + offset < length { after := Some(t[middle + offset]); }
    while before != Some(' ') && after != Some(' ') && offset <= middle
      invariant 1 <= offset <= middle + 1
      invariant NoSpaceWithin(t, middle, offset)
      invariant Outward(t, middle, offset) == Outward(t, middle, 1)
      invariant middle - offset >= 0 ==> before == Some(t[middle - offset])
      invariant middle - offset < 0 ==> before != Some(' ')
      invariant middle + offset < length ==> after == Some(t[middle + offset])
      invariant middle + offset >= length ==> after != Some(' ')
      decreases middle + 1 - offset
    {
      OutwardAdvance(t, middle, offset);
      offset := offset + 1;
      if middle - offset >= 0 { before := Some(t[middle - offset]); }
      if middle + offset < length { after := Some(t[middle + offset]); }
    }
    var q :| 0 <= q < |t| && t[q] == ' ';
    assert Dist(q, middle) <= middle;
    if before == Some(' ') {
      split := middle - offset;
    } else {
      split := middle + offset;
    }
    OutwardFound(t, middle, offset);
  }

  /** The search stops at the first distance with a space on either side, taking the
    * left one when both are. */
  lemma OutwardFound(t: string, middle: nat, offset: nat)
    requires middle < |t| && 1 <= offset
    requires (offset <= middle && t[middle - offset] == ' ') || (middle + offset < |t| && t[middle + offset] == ' ')
    ensures Outward(t, middle, offset) == if offset <= middle && t[middle - offset] == ' ' then middle - offset else middle + offset
  {
  }

  /** A step of the search that finds no space on either side leaves no space within
    * the next distance, and the search goes on to it. */
  lemma OutwardAdvance(t: string, middle: nat, offset: nat)
    requires middle < |t| && 1 <= offset <= middle && NoSpaceWithin(t, middle, offset)
    requires t[middle - offset] != ' '
    requires middle + offset < |t| ==> t[middle + offset] != ' '
    ensures NoSpaceWithin(t, middle, offset + 1)
    ensures Outward(t, middle, offset) == Outward(t, middle, offset + 1)
  {
    forall q | 0 <= q < |t| && 0 < Dist(q, middle) < offset + 1
      ensures t[q] != ' '
    {
      if Dist(q, middle) == offset {
        assert q == middle - offset || q == middle + offset;
      }
    }
  }

  /** One cut of cleverSplit on a trimmed string too long to keep: without a space,
    * the exact middle, with a hyphen added to the left half; otherwise just before the
    * space nearest the middle, which the right half starts with. Both halves are
    * shorter than the string. */
  function Halves(t: string): (h: (string, string))
    requires Trimmed(t) && |t| >= 3
    ensures |h.0| < |t| && |h.1| < |t|
    ensures ' ' !in t ==> |h.0| == |t| / 2 + 1 && h.0 == h.0[..|h.0| - 1] + "-" && h.0[..|h.0| - 1] + h.1 == t
    ensures ' ' in t ==> h.0 + h.1 == t && h.0 != [] && h.1 != [] && h.1[0] == ' '
    ensures ' ' in t ==> forall q :: 0 <= q < |t| && t[q] == ' ' ==>
      Dist(|h.0|, |t| / 2) < Dist(q, |t| / 2) || (Dist(|h.0|, |t| / 2) == Dist(q, |t| / 2) && |h.0| <= q)
  {
    var middle := |t| / 2;
    if ' ' !in t then
      (t[..middle] + "-", t[middle..])
    else
      var split := if t[middle] == ' ' then middle else Outward(t, middle, 1);
      assert 0 < split < |t| && t[split] == ' ' && forall q :: 0 <= q < |t| && t[q] == ' ' ==>
        Dist(split, middle) < Dist(q, middle) || (Dist(split, middle) == Dist(q, middle) && split <= q) by {
        if t[middle] != ' ' { OutwardNearest(t, middle, 1); }
      }
      (t[..split], t[split..])
  }

  /** The pieces cleverSplit joins with `<br/>`: a trimmed string that fits is one
    * piece; a longer one is cut in two and each half split again. */
  function Pieces(s: string, len: int): (r: seq<string>)
    requires len >= 2
    ensures |r| >= 1
    decreases |Trim(s)|
  {
    var t := Trim(s);
    if |t| <= len then [t]
    else
      var h := Halves(t);
      Pieces(h.0, len) + Pieces(h.1, len)
  }

  /** Every piece fits in `len` characters and carries no white space at either end; a
    * string that does not fit after trimming is split at least once. */
  lemma {:induction false} PiecesShape(s: string, len: int)
    requires len >= 2
    ensures forall p :: p in Pieces(s, len) ==> |p| <= len && Trimmed(p)
    ensures |Trim(s)| > len ==> |Pieces(s, len)| >= 2
    decreases |Trim(s)|
  {
    var t := Trim(s);
    if |t| > len {
      var h := Halves(t);
      var left, right := Pieces(h.0, len), Pieces(h.1, len);
      assert Pieces(s, len) == left + right;
      PiecesShape(h.0, len);
      PiecesShape(h.1, len);
      forall p | p in left + right
        ensures |p| <= len && Trimmed(p)
      {
        if p in left { } else { assert p in right; }
      }
    }
  }

  /** A string that fits after trimming comes back trimmed and unsplit. */
  lemma ShortUnsplit(s: string, len: int)
    requires len >= 2 && |Trim(s)| <= len
    ensures Join(Pieces(s, len), "<br/>") == Trim(s)
  {
  }

  lemma {:induction false} JoinConcat(a: seq<string>, b: seq<string>, sep: string)
    requires |a| >= 1 && |b| >= 1
    ensures Join(a + b, sep) == Join(a, sep) + sep + Join(b, sep)
  {
    if |a| > 1 {
      assert (a + b)[1..] == a[1..] + b;
      JoinConcat(a[1..], b, sep);
    } else {
      assert (a + b)[1..] == b;
    }
  }

  /** A string too long after trimming joins as its two halves' pieces, joined with the
    * separator between them. */
  lemma JoinedPieces(s: string, len: int)
    requires len >= 2 && |Trim(s)| > len
    ensures var h := Halves(Trim(s));
      Join(Pieces(s, len), "<br/>") == Join(Pieces(h.0, len), "<br/>") + "<br/>" + Join(Pieces(h.1, len), "<br/>")
  {
    var h := Halves(Trim(s));
    assert Pieces(s, len) == Pieces(h.0, len) + Pieces(h.1, len);
    JoinConcat(Pieces(h.0, len), Pieces(h.1, len), "<br/>");
  }

  /** The cut cleverSplit makes in a trimmed string longer than `len`. */
  method Cut(str: string) returns (left: string, right: string)
    requires Trimmed(str) && |str| >= 3
    ensures (left, right) == Halves(str)
  {
    var length := |str|;
    var middle := length / 2;
    if ' ' !in str {
      left := str[..middle] + "-";
      right := str[middle..length];
      assert Halves(str).0 == left;
      assert Halves(str).1 == right;
    } else {
      var split: nat;
      if str[middle] == ' ' {
        split := middle;
      } else {
        split := SplitPoint(str);
      }
      left := str[..split];
      right := str[split..length];
      assert Halves(str).0 == left;
      assert Halves(str).1 == right;
    }
  }

  /** GOODENERGY.Util.cleverSplit: anything but a string comes back as it is; a string
    * is trimmed and split recursively, the pieces joined with `<br/>`. */
  method CleverSplit(v: JsValue, len: int) returns (r: JsValue)
    requires len >= 2
    ensures !v.JsStr? ==> r == v
    ensures v.JsStr? ==> r == JsStr(Join(Pieces(v.s, len), "<br/>"))
    decreases if v.JsStr? then |Trim(v.s)| else 0
  {
    if !v.JsStr? {
      return v;
    }
    var str := Trim(v.s);
    if |str| <= len {
      ShortUnsplit(v.s, len);
      return JsStr(str);
    }
    var left, right := Cut(str);
    JoinedPieces(v.s, len);
    assert |Trim(left)| < |str| && |Trim(right)| < |str|;
    var l := CleverSplit(JsStr(left), len);
    var rr := CleverSplit(JsStr(right), len);
    return JsStr(l.s + "<br/>" + rr.s);
  }
}
