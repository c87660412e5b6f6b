/**
 * JSInteropUtil: setting the size of a foreign array, listing a foreign
 * object's member keys, and formatting a foreign exception with its stack trace
 * and source locations.
 */
module InteropUtil {
  import opened Wrappers
  import opened JavaArith

  /** The values written into or held by a foreign array; only undefined is distinguished. */
  datatype Value = Undefined | Other(id: int)

  /** An element operation setArraySize performed on a foreign array. */
  datatype ElementOp = Remove(index: int) | Write(index: int, value: Value)

  /**
   * A foreign array seen through the interop protocol, modelled as a list: it has
   * array elements or not, refuses element operations at some indices, removes
   * an element by closing the gap and grows by a write just past its end. `log`
   * records the operations it has accepted, in order.
   */
  class ForeignArray {
    var elements: seq<Value>
    const hasArrayElements: bool
    const refused: set<int>
    ghost var log: seq<ElementOp>

    constructor (elements: seq<Value>, hasArrayElements: bool, refused: set<int>)
      ensures this.elements == elements && this.hasArrayElements == hasArrayElements && this.refused == refused
      ensures log == []
    {
      this.elements := elements;
      this.hasArrayElements := hasArrayElements;
      this.refused := refused;
      this.log := [];
    }

    /** removeArrayElement: fails on an index it refuses or that is out of range. */
    method RemoveArrayElement(index: int) returns (ok: bool)
      modifies this
      ensures ok <==> 0 <= index < |old(elements)| && index !in refused
      ensures ok ==> elements == old(elements[..index] + elements[index + 1..]) && log == old(log) + [Remove(index)]
      ensures !ok ==> unchanged(this)
    {
      if 0 <= index < |elements| && index !in refused {
        elements := elements[..index] + elements[index + 1..];
        log := log + [Remove(index)];
        return true;
      }
      return false;
    }

    /** writeArrayElement: replaces an element, or appends one at index size; fails on a refused index. */
    method WriteArrayElement(index: int, value: Value) returns (ok: bool)
      modifies this
      ensures ok <==> 0 <= index <= |old(elements)| && index !in refused
      ensures ok && index < |old(elements)| ==> elements == old(elements)[index := value]
      ensures ok && index == |old(elements)| ==> elements == old(elements) + [value]
      ensures ok ==> log == old(log) + [Write(index, value)]
      ensures !ok ==> unchanged(this)
    {
      if 0 <= index < |elements| && index !in refused {
        elements := elements[index := value];
        log := log + [Write(index, value)];
        return true;
      } else if index == |elements| && index !in refused {
        elements := elements + [value];
        log := log + [Write(index, value)];
        return true;
      }
      return false;
    }
  }

  /** The largest array length, 2^32 - 1. */
  const MAX_ARRAY_LENGTH: int := 0xFFFF_FFFF

  /**
   * The element operations setArraySize performs to go from `oldLen` to `newLen`:
   * removals from index oldLen - 1 down to newLen, or writes of undefined from
   * oldLen up to newLen - 1.
   */
  function PlannedOps(oldLen: nat, newLen: nat): (ops: seq<ElementOp>)
    ensures newLen < oldLen ==> |ops| == oldLen - newLen && forall i :: 0 <= i < |ops| ==> ops[i] == Remove(oldLen - 1 - i)
    ensures oldLen <= newLen ==> |ops| == newLen - oldLen && forall i :: 0 <= i < |ops| ==> ops[i] == Write(oldLen + i, Undefined)
  {
    if newLen < oldLen then seq(oldLen - newLen, i => Remove(oldLen - 1 - i))
    else seq(newLen - oldLen, i => Write(oldLen + i, Undefined))
  }

  /** Removals go strictly down and writes strictly up, and every index lies between the two lengths. */
  lemma PlannedOpsOrder(oldLen: nat, newLen: nat)
    ensures var ops := PlannedOps(oldLen, newLen);
            (forall i, j :: 0 <= i < j < |ops| ==>
               if newLen < oldLen then ops[i].index > ops[j].index else ops[i].index < ops[j].index)
            && (forall i :: 0 <= i < |ops| ==> newLen <= ops[i].index < oldLen || oldLen <= ops[i].index < newLen)
  {
  }

  /** The elements after resizing to `n`: a prefix when shrinking, padded with undefined when growing. */
  function SizedTo(s: seq<Value>, n: nat): (r: seq<Value>)
    ensures |r| == n
    ensures forall i :: 0 <= i < n && i < |s| ==> r[i] == s[i]
    ensures forall i :: |s| <= i < n ==> r[i] == Undefined
  {
    if n <= |s| then s[..n] else s + seq(n - |s|, _ => Undefined)
  }

  /** Growing and shrinking back restores the array. */
  lemma SizedToRoundTrip(s: seq<Value>, n: nat)
    requires |s| <= n
    ensures SizedTo(SizedTo(s, n), |s|) == s
  {
    var r := SizedTo(SizedTo(s, n), |s|);
    assert forall i :: 0 <= i < |s| ==> r[i] == s[i];
  }

  /** Whether any of the planned operations hits a refused index. */
  predicate AnyRefused(ops: seq<ElementOp>, refused: set<int>)
  {
    exists i :: 0 <= i < |ops| && ops[i].index in refused
  }

  /** The length after the first `k` planned operations. */
  function LengthAfter(oldLen: nat, newLen: nat, k: nat): nat
    requires k <= |PlannedOps(oldLen, newLen)|
  {
    if newLen < oldLen then oldLen - k else oldLen + k
  }

  /**
   * The shrinking loop of setArraySize: removes indices oldLen - 1 down to
   * newLen and stops at the first refused one; `done` operations took effect.
   */
  method RemoveDescending(obj: ForeignArray, oldLen: nat, newLen: nat) returns (done: nat)
    requires newLen < oldLen == |obj.elements|
    modifies obj
    ensures done <= oldLen - newLen
    ensures obj.elements == old(obj.elements)[..oldLen - done]
    ensures obj.log == old(obj.log) + PlannedOps(oldLen, newLen)[..done]
    ensures forall i :: 0 <= i < done ==> PlannedOps(oldLen, newLen)[i].index !in obj.refused
    ensures done < oldLen - newLen ==> PlannedOps(oldLen, newLen)[done].index in obj.refused
  {
    ghost var ops := PlannedOps(oldLen, newLen);
    done := 0;
    while done < oldLen - newLen
      invariant done <= oldLen - newLen
      invariant obj.elements == old(obj.elements)[..oldLen - done]
      invariant obj.log == old(obj.log) + ops[..done]
      invariant forall i :: 0 <= i < done ==> ops[i].index !in obj.refused
    {
      var index := oldLen - 1 - done;
      var ok := obj.RemoveArrayElement(index);
      if !ok {
        return;
      }
      assert ops[..done + 1] == ops[..done] + [Remove(index)];
      done := done + 1;
    }
  }

  /**
   * The growing loop of setArraySize: writes undefined at indices oldLen up to
   * newLen - 1 and stops at the first refused one; `done` operations took effect.
   */
  method WriteAscending(obj: ForeignArray, oldLen: nat, newLen: nat) returns (done: nat)
    requires oldLen == |obj.elements| && oldLen <= newLen
    modifies obj
    ensures done <= newLen - oldLen
    ensures obj.elements == old(obj.elements) + seq(done, _ => Undefined)
    ensures obj.log == old(obj.log) + PlannedOps(oldLen, newLen)[..done]
    ensures forall i :: 0 <= i < done ==> PlannedOps(oldLen, newLen)[i].index !in obj.refused
    ensures done < newLen - oldLen ==> PlannedOps(oldLen, newLen)[done].index in obj.refused
  {
    ghost var ops := PlannedOps(oldLen, newLen);
    done := 0;
    while done < newLen - oldLen
      invariant done <= newLen - oldLen
      invariant obj.elements == old(obj.elements) + seq(done, _ => Undefined)
      invariant obj.log == old(obj.log) + ops[..done]
      invariant forall i :: 0 <= i < done ==> ops[i].index !in obj.refused
    {
      var index := oldLen + done;
      var ok := obj.WriteArrayElement(index, Undefined);
      if !ok {
        return;
      }
      assert ops[..done + 1] == ops[..done] + [Write(index, Undefined)];
      assert old(obj.elements) + seq(done + 1, _ => Undefined) == old(obj.elements) + seq(done, _ => Undefined) + [Undefined];
      done := done + 1;
    }
  }

  /**
   * setArraySize: the new length must be a valid array length (RangeError), the
   * object must have array elements (TypeError); then the planned operations run
   * in order. If one fails, the strict caller gets a TypeError and the sloppy one
   * false, and the operations before it have taken effect; otherwise true.
   */
  method SetArraySize(obj: ForeignArray, value: int, isStrict: bool) returns (r: Result<bool>)
    modifies obj
    ensures !(0 <= value <= MAX_ARRAY_LENGTH) ==> r == Err(RangeError) && unchanged(obj)
    ensures 0 <= value <= MAX_ARRAY_LENGTH && !obj.hasArrayElements ==> r == Err(TypeError) && unchanged(obj)
    ensures 0 <= value <= MAX_ARRAY_LENGTH && obj.hasArrayElements ==>
              var ops := PlannedOps(|old(obj.elements)|, value);
              r == (if !AnyRefused(ops, obj.refused) then Ok(true) else if isStrict then Err(TypeError) else Ok(false))
    ensures r == Ok(true) ==>
              obj.elements == SizedTo(old(obj.elements), value)
              && obj.log == old(obj.log) + PlannedOps(|old(obj.elements)|, value)
    ensures 0 <= value <= MAX_ARRAY_LENGTH && obj.hasArrayElements && r != Ok(true) ==>
              var ops := PlannedOps(|old(obj.elements)|, value);
              exists k :: 0 <= k < |ops| && ops[k].index in obj.refused && obj.log == old(obj.log) + ops[..k]
                          && obj.elements == SizedTo(old(obj.elements), LengthAfter(|old(obj.elements)|, value, k))
  {
    if !(0 <= value <= MAX_ARRAY_LENGTH) {
      return Err(RangeError);
    }
    var newLen: nat := value;
    if !obj.hasArrayElements {
      return Err(TypeError);
    }
    var oldLen := |obj.elements|;
    ghost var ops := PlannedOps(oldLen, newLen);
    var done;
    if newLen < oldLen {
      done := RemoveDescending(obj, oldLen, newLen);
    } else {
      done := WriteAscending(obj, oldLen, newLen);
    }
    assert obj.elements == SizedTo(old(obj.elements), LengthAfter(oldLen, newLen, done));
    var planned := if newLen < oldLen then oldLen - newLen else newLen - oldLen;
    if done < planned {
      assert ops[done].index in obj.refused;
      return if isStrict then Err(TypeError) else Ok(false);
    }
    assert ops[..done] == ops;
    assert !AnyRefused(ops, obj.refused) by {
      forall i | 0 <= i < |ops|
        ensures ops[i].index !in obj.refused
      {
      }
    }
    return Ok(true);
  }

  /**
   * keys: the member list must have a size in [0, Integer.MAX_VALUE)
   * (RangeError); each of its elements is read in order, and an element that
   * cannot be read is a TypeError.
   */
  method Keys(size: int, members: seq<Result<string>>) returns (r: Result<seq<string>>)
    ensures size < 0 || size >= INT_MAX ==> r == Err(RangeError)
    ensures r.Ok? ==> |r.value| == size && size <= |members| && forall i :: 0 <= i < size ==> members[i] == Ok(r.value[i])
    ensures (0 <= size < INT_MAX && size <= |members| && forall i :: 0 <= i < size ==> members[i].Ok?) ==> r.Ok?
    ensures r.Err? && 0 <= size < INT_MAX ==> r.error == TypeError
  {
    if size < 0 || size >= INT_MAX {
      return Err(RangeError);
    }
    var keys: seq<string> := [];
    var i := 0;
    while i < size
      invariant 0 <= i <= size
      invariant |keys| == i && i <= |members|
      invariant forall j :: 0 <= j < i ==> members[j] == Ok(keys[j])
    {
      if i >= |members| || members[i].Err? {
        return Err(TypeError);
      }
      keys := keys + [members[i].value];
      i := i + 1;
    }
    return Ok(keys);
  }

  /** The decimal digits of a natural number, as StringBuilder.append(int) writes them. */
  function NatToString(n: nat): (s: string)
    ensures |s| >= 1 && forall i :: 0 <= i < |s| ==> '0' <= s[i] <= '9'
  {
    if n < 10 then [('0' as int + n) as char] else NatToString(n / 10) + [('0' as int + n % 10) as char]
  }

  /** The number a string of decimal digits denotes. */
  function ParseNat(s: string): int
  {
    if |s| == 0 then 0 else ParseNat(s[..|s| - 1]) * 10 + (s[|s| - 1] as int - '0' as int)
  }

  lemma {:induction false} ParseNatToString(n: nat)
    ensures ParseNat(NatToString(n)) == n
  {
    var s := NatToString(n);
    if n >= 10 {
      ParseNatToString(n / 10);
      assert s[..|s| - 1] == NatToString(n / 10);
    }
  }

  /** The index of the first '-' in `s`, or its length if it has none. */
  function DashIndex(s: string): (r: nat)
    ensures r <= |s|
    ensures forall i :: 0 <= i < r ==> s[i] != '-'
    ensures r < |s| ==> s[r] == '-'
  {
    if |s| == 0 || s[0] == '-' then 0 else 1 + DashIndex(s[1..])
  }

  lemma {:induction false} DashIndexAfter(a: string, b: string)
    requires forall i :: 0 <= i < |a| ==> a[i] != '-'
    ensures DashIndex(a + b) == |a| + DashIndex(b)
  {
    if |a| > 0 {
      assert (a + b)[1..] == a[1..] + b;
      DashIndexAfter(a[1..], b);
    } else {
      assert a + b == b;
    }
  }

  /** "lo", or "lo-hi" when the range is shown, as formatSourceLocation writes a line or character range. */
  function Range(lo: nat, hi: nat, show: bool): string
  {
    if show then NatToString(lo) + "-" + NatToString(hi) else NatToString(lo)
  }

  /** The inverse of Range: the number before the first dash, and the one after it if there is a dash. */
  function ParseRange(s: string): (nat, Option<nat>)
  {
    var d := DashIndex(s);
    var lo := ParseNat(s[..d]);
    var hi := if d < |s| then ParseNat(s[d + 1..]) else 0;
    (if lo >= 0 then lo else 0, if d < |s| then Some(if hi >= 0 then hi else 0) else None)
  }

  /** Splitting "a-b" at its first dash, when `a` has no dash, gives back `a` and `b`. */
  lemma DashSplits(a: string, b: string)
    requires forall i :: 0 <= i < |a| ==> a[i] != '-'
    ensures var s := a + "-" + b; DashIndex(s) == |a| < |s| && s[..|a|] == a && s[|a| + 1..] == b
  {
    var s := a + "-" + b;
    assert s == a + ("-" + b);
    DashIndexAfter(a, "-" + b);
  }

  /** A range written by formatSourceLocation reads back as the numbers written. */
  lemma RangeReadsBack(lo: nat, hi: nat, show: bool)
    ensures ParseRange(Range(lo, hi, show)) == (lo, if show then Some(hi) else None)
  {
    var a := NatToString(lo);
    ParseNatToString(lo);
    if show {
      DashSplits(a, NatToString(hi));
      ParseNatToString(hi);
    } else {
      DashIndexAfter(a, "");
      assert a + "" == a;
    }
  }

  /** The part of a Truffle SourceSection that formatSourceLocation reads; lines and characters are not negative. */
  datatype SourceSection = SourceSection(sourceName: string, startLine: nat, endLine: nat, charIndex: nat, charLength: nat)

  /**
   * formatSourceLocation: "Unknown" without a section, else the source name, the
   * start line (and "-end" when the section spans lines) and the character index
   * (and "-last" when it spans more than one character).
   */
  function FormatSourceLocation(section: Option<SourceSection>): (r: string)
    ensures section.None? ==> r == "Unknown"
    ensures section.Some? ==>
              var s := section.value;
              var lines := Range(s.startLine, s.endLine, s.startLine < s.endLine);
              var last := if s.charLength > 1 then s.charIndex + s.charLength - 1 else s.charIndex;
              var chars := Range(s.charIndex, last, s.charLength > 1);
              r == s.sourceName + ":" + lines + ":" + chars
  {
    match section
    case None => "Unknown"
    case Some(s) =>
      var lines := Range(s.startLine, s.endLine, s.startLine < s.endLine);
      var last := if s.charLength > 1 then s.charIndex + s.charLength - 1 else s.charIndex;
      var chars := Range(s.charIndex, last, s.charLength > 1);
      s.sourceName + ":" + lines + ":" + chars
  }

  /** A stack trace element: its executable name ("" when it has none), source location and declaring class ("" when none). */
  datatype StackFrame = StackFrame(name: string, location: Option<SourceSection>, className: string)

  /** An error value: a foreign exception with an optional message and stack trace, or any other value with its string form. */
  datatype ErrorValue =
    | ForeignException(message: Option<string>, stackTrace: seq<StackFrame>)
    | NotAnException(text: string)

  /** Frames with neither a name nor a location are skipped. */
  predicate Shown(f: StackFrame)
  {
    f.name != "" || f.location.Some?
  }

  /** The line formatError writes for a shown frame. */
  function FrameLine(f: StackFrame, anonymousName: string): string
  {
    "\n" + "    at " + (if f.className != "" then f.className + "." else "")
    + (if f.name != "" then f.name else anonymousName)
    + (if f.location.Some? then " (" + FormatSourceLocation(f.location) + ")" else "")
  }

  /** The header followed by the line of every shown frame, frame by frame. */
  function TraceText(header: string, frames: seq<StackFrame>, anonymousName: string): string
  {
    if |frames| == 0 then header
    else TraceText(header, frames[..|frames| - 1], anonymousName)
         + (if Shown(frames[|frames| - 1]) then FrameLine(frames[|frames| - 1], anonymousName) else "")
  }

  /** The text formatError gives: the message (or "Error") followed by one line per shown frame. */
  function FormattedError(error: ErrorValue, anonymousName: string): string
  {
    match error
    case NotAnException(text) => text
    case ForeignException(message, frames) =>
      TraceText(if message.Some? then message.value else "Error", frames, anonymousName)
  }

  /** The text appended for one stack frame, built piece by piece. */
  method FrameText(f: StackFrame, anonymousName: string) returns (line: string)
    ensures line == FrameLine(f, anonymousName)
  {
    line := "\n" + "    at ";
    if f.className != "" {
      line := line + (f.className + ".");
    } else {
      line := line + "";
    }
    if f.name != "" {
      line := line + f.name;
    } else {
      line := line + anonymousName;
    }
    if f.location.Some? {
      line := line + (" (" + FormatSourceLocation(f.location) + ")");
    } else {
      line := line + "";
    }
  }

  /** formatError, as the loop over the stack trace that appends to a builder. */
  method FormatError(error: ErrorValue, anonymousName: string) returns (r: string)
    ensures r == FormattedError(error, anonymousName)
  {
    if error.NotAnException? {
      return error.text;
    }
    var header := if error.message.Some? then error.message.value else "Error";
    var sb := header;
    var frames := error.stackTrace;
    var i := 0;
    while i < |frames|
      invariant 0 <= i <= |frames|
      invariant sb == TraceText(header, frames[..i], anonymousName)
    {
      var f := frames[i];
      assert frames[..i + 1][..i] == frames[..i];
      if Shown(f) {
        var line := FrameText(f, anonymousName);
        sb := sb + line;
      }
      i := i + 1;
    }
    assert frames[..i] == frames;
    return sb;
  }

  /** The number of line breaks in a string. */
  function Newlines(s: string): nat
  {
    if |s| == 0 then 0 else Newlines(s[..|s| - 1]) + (if s[|s| - 1] == '\n' then 1 else 0)
  }

  lemma {:induction false} NewlinesAppend(a: string, b: string)
    ensures Newlines(a + b) == Newlines(a) + Newlines(b)
    decreases |b|
  {
    if |b| > 0 {
      assert (a + b)[..|a + b| - 1] == a + b[..|b| - 1];
      NewlinesAppend(a, b[..|b| - 1]);
    } else {
      assert a + b == a;
    }
  }

  /** The number of frames formatError shows. */
  function ShownCount(frames: seq<StackFrame>): nat
  {
    if |frames| == 0 then 0 else ShownCount(frames[..|frames| - 1]) + (if Shown(frames[|frames| - 1]) then 1 else 0)
  }

  /** Text without line breaks. */
  predicate SingleLine(s: string)
  {
    forall i :: 0 <= i < |s| ==> s[i] != '\n'
  }

  lemma {:induction false} SingleLineHasNoNewlines(s: string)
    requires SingleLine(s)
    ensures Newlines(s) == 0
    decreases |s|
  {
    if |s| > 0 {
      SingleLineHasNoNewlines(s[..|s| - 1]);
    }
  }

  lemma RangeHasNoNewlines(lo: nat, hi: nat, show: bool)
    ensures Newlines(Range(lo, hi, show)) == 0
  {
    SingleLineHasNoNewlines(NatToString(lo));
    SingleLineHasNoNewlines(NatToString(hi));
    SingleLineHasNoNewlines("-");
    if show {
      NewlinesAppend(NatToString(lo), "-");
      NewlinesAppend(NatToString(lo) + "-", NatToString(hi));
    }
  }

  lemma LocationHasNoNewlines(s: SourceSection)
    requires SingleLine(s.sourceName)
    ensures Newlines(FormatSourceLocation(Some(s))) == 0
  {
    var lines := Range(s.startLine, s.endLine, s.startLine < s.endLine);
    var last := if s.charLength > 1 then s.charIndex + s.charLength - 1 else s.charIndex;
    var chars := Range(s.charIndex, last, s.charLength > 1);
    RangeHasNoNewlines(s.startLine, s.endLine, s.startLine < s.endLine);
    RangeHasNoNewlines(s.charIndex, last, s.charLength > 1);
    SingleLineHasNoNewlines(s.sourceName);
    SingleLineHasNoNewlines(":");
    NewlinesAppend(s.sourceName, ":");
    NewlinesAppend(s.sourceName + ":", lines);
    NewlinesAppend(s.sourceName + ":" + lines, ":");
    NewlinesAppend(s.sourceName + ":" + lines + ":", chars);
  }

  /** The texts of a frame, none of which holds a line break. */
  predicate FrameSingleLine(f: StackFrame)
  {
    SingleLine(f.name) && SingleLine(f.className)
    && (f.location.Some? ==> SingleLine(f.location.value.sourceName))
  }

  /** The frame prefix "\n    at " holds the frame's only line break. */
  lemma FramePrefixHasOneNewline()
    ensures Newlines("\n" + "    at ") == 1
  {
    SingleLineHasNoNewlines("    at ");
    NewlinesAppend("\n", "    at ");
    assert Newlines("\n") == Newlines("\n"[..0]) + 1;
  }

  /** The " (location)" suffix of a frame line has no line break. */
  lemma LocationSuffixHasNoNewlines(s: SourceSection)
    requires SingleLine(s.sourceName)
    ensures Newlines(" (" + FormatSourceLocation(Some(s)) + ")") == 0
  {
    LocationHasNoNewlines(s);
    SingleLineHasNoNewlines(" (");
    SingleLineHasNoNewlines(")");
    NewlinesAppend(" (", FormatSourceLocation(Some(s)));
    NewlinesAppend(" (" + FormatSourceLocation(Some(s)), ")");
  }

  /** The "className." part of a frame line, empty for a frame without a class name. */
  lemma ClassPrefixHasNoNewlines(className: string)
    requires SingleLine(className)
    ensures Newlines(if className != "" then className + "." else "") == 0
  {
    SingleLineHasNoNewlines(className);
    SingleLineHasNoNewlines(".");
    NewlinesAppend(className, ".");
  }

  lemma NewlinesAppendFour(a: string, b: string, c: string, d: string)
    ensures Newlines(a + b + c + d) == Newlines(a) + Newlines(b) + Newlines(c) + Newlines(d)
  {
    NewlinesAppend(a, b);
    NewlinesAppend(a + b, c);
    NewlinesAppend(a + b + c, d);
  }

  lemma FrameLineHasOneNewline(f: StackFrame, anonymousName: string)
    requires FrameSingleLine(f) && SingleLine(anonymousName)
    ensures Newlines(FrameLine(f, anonymousName)) == 1
  {
    var p3 := if f.name != "" then f.name else anonymousName;
    var p4 := if f.location.Some? then " (" + FormatSourceLocation(f.location) + ")" else "";
    FramePrefixHasOneNewline();
    ClassPrefixHasNoNewlines(f.className);
    SingleLineHasNoNewlines(p3);
    if f.location.Some? {
      LocationSuffixHasNoNewlines(f.location.value);
    }
    NewlinesAppendFour("\n" + "    at ", if f.className != "" then f.className + "." else "", p3, p4);
  }

  /**
   * When the header and every frame's texts are single lines, formatError's
   * output has exactly one line break per shown frame: skipped frames leave no
   * trace.
   */
  lemma {:induction false} TraceTextLineCount(header: string, frames: seq<StackFrame>, anonymousName: string)
    requires SingleLine(header) && SingleLine(anonymousName)
    requires forall i :: 0 <= i < |frames| ==> FrameSingleLine(frames[i])
    ensures Newlines(TraceText(header, frames, anonymousName)) == ShownCount(frames)
    decreases |frames|
  {
    if |frames| == 0 {
      SingleLineHasNoNewlines(header);
    } else {
      var init := frames[..|frames| - 1];
      var f := frames[|frames| - 1];
      TraceTextLineCount(header, init, anonymousName);
      var tail := if Shown(f) then FrameLine(f, anonymousName) else "";
      NewlinesAppend(TraceText(header, init, anonymousName), tail);
      if Shown(f) {
        FrameLineHasOneNewline(f, anonymousName);
      }
    }
  }

  /** formatError of a foreign exception writes one line per shown frame after the message. */
  lemma FormattedErrorLineCount(message: Option<string>, frames: seq<StackFrame>, anonymousName: string)
    requires message.Some? ==> SingleLine(message.value)
    requires SingleLine(anonymousName)
    requires forall i :: 0 <= i < |frames| ==> FrameSingleLine(frames[i])
    ensures Newlines(FormattedError(ForeignException(message, frames), anonymousName)) == ShownCount(frames)
  {
    var header := if message.Some? then message.value else "Error";
    assert SingleLine("Error") by {
      assert forall i :: 0 <= i < 5 ==> "Error"[i] in "Erro";
    }
    TraceTextLineCount(header, frames, anonymousName);
    assert FormattedError(ForeignException(message, frames), anonymousName) == TraceText(header, frames, anonymousName);
  }
}
