/**
 * A `std::stringstream` opened on one input line, reduced to what the command
 * parser uses: a read cursor and the `eofbit`/`failbit` state flags, with the
 * standard library's rules for `peek`, `get`, `ignore`, `operator>>` into a
 * string, and `getline` with a delimiter.
 */
module Stream {
  import opened Wrappers
  import opened CType

  /** The first index at or after `i` whose character satisfies `stop`, or `|line|`. */
  function FirstFrom(line: string, i: nat, stop: char -> bool): (r: nat)
    requires i <= |line|
    ensures i <= r <= |line|
    ensures forall k :: i <= k < r ==> !stop(line[k])
    ensures r < |line| ==> stop(line[r])
    decreases |line| - i
  {
    if i == |line| || stop(line[i]) then i else FirstFrom(line, i + 1, stop)
  }

  predicate NotBlank(c: char) { !IsBlank(c) }
  predicate NotSpace(c: char) { !IsSpace(c) }

  /** Start of the word `operator>>` extracts from `i`: leading whitespace is skipped. */
  function WordStart(line: string, i: nat): (r: nat)
    requires i <= |line|
  {
    FirstFrom(line, i, NotSpace)
  }

  /** End of the word `operator>>` extracts from `i`: the next whitespace or the end. */
  function WordEnd(line: string, i: nat): (r: nat)
    requires i <= |line|
  {
    FirstFrom(line, WordStart(line, i), IsSpace)
  }

  /** The string `operator>>` extracts from `i`. */
  function Word(line: string, i: nat): (w: string)
    requires i <= |line|
  {
    line[WordStart(line, i)..WordEnd(line, i)]
  }

  /**
   * A word extraction skips whitespace, then returns the line's text from the first
   * non-whitespace character up to the next whitespace or the end of the line; the
   * result is free of whitespace and is empty only when nothing but whitespace is left.
   */
  lemma WordShape(line: string, i: nat)
    requires i <= |line|
    ensures i <= WordStart(line, i) <= WordEnd(line, i) <= |line|
    ensures Word(line, i) == line[WordStart(line, i)..WordEnd(line, i)]
    ensures forall k :: i <= k < WordStart(line, i) ==> IsSpace(line[k])
    ensures WordStart(line, i) < |line| ==> !IsSpace(line[WordStart(line, i)])
    ensures forall c :: c in Word(line, i) ==> !IsSpace(c)
    ensures Word(line, i) == [] <==> forall k :: i <= k < |line| ==> IsSpace(line[k])
    ensures WordEnd(line, i) < |line| ==> IsSpace(line[WordEnd(line, i)])
  {
    var s, e := WordStart(line, i), WordEnd(line, i);
    forall c | c in Word(line, i) ensures !IsSpace(c) {
      var k :| 0 <= k < e - s && Word(line, i)[k] == c;
      assert line[s + k] == c;
    }
  }

  /** `FirstFrom` is the only index with its defining property. */
  lemma {:induction false} FirstFromUnique(line: string, i: nat, stop: char -> bool, e: nat)
    requires i <= e <= |line|
    requires forall k :: i <= k < e ==> !stop(line[k])
    requires e < |line| ==> stop(line[e])
    ensures FirstFrom(line, i, stop) == e
    decreases e - i
  {
    if i < e {
      FirstFromUnique(line, i + 1, stop, e);
    }
  }

  class StringStream {
    const line: string
    var pos: nat
    var eof: bool
    var fail: bool

    /** A stream whose eofbit or failbit is set has nothing left to read. */
    ghost predicate Valid()
      reads this
    {
      pos <= |line| && ((eof || fail) ==> pos == |line|)
    }

    /** `good()`: neither eofbit nor failbit (badbit never arises on a string buffer). */
    predicate Good()
      reads this
    {
      !eof && !fail
    }

    /** `std::stringstream input(line)`. */
    constructor (s: string)
      ensures line == s && pos == 0 && Good() && Valid()
    {
      line := s;
      pos := 0;
      eof, fail := false, false;
    }

    /**
     * `peek()`: the next character without consuming it. On a stream that is not
     * good the sentry sets failbit; at the end of the line eofbit is set.
     */
    method Peek() returns (c: Option<char>)
      requires Valid()
      modifies this
      ensures Valid() && pos == old(pos)
      ensures c.Some? <==> old(Good()) && pos < |line|
      ensures c.Some? ==> c.value == line[pos]
      ensures eof == (old(eof) || (old(Good()) && pos == |line|))
      ensures fail == (old(fail) || old(eof))
    {
      if !Good() {
        fail := true;
        c := None;
      } else if pos == |line| {
        eof := true;
        c := None;
      } else {
        c := Some(line[pos]);
      }
    }

    /** `get()`: extracts one character; at the end of the line sets eofbit and failbit. */
    method Get() returns (c: Option<char>)
      requires Valid()
      modifies this
      ensures Valid()
      ensures c.Some? <==> old(Good()) && old(pos) < |line|
      ensures c.Some? ==> c.value == line[old(pos)] && pos == old(pos) + 1
      ensures c.None? ==> pos == old(pos)
      ensures eof == (old(eof) || (old(Good()) && old(pos) == |line|))
      ensures fail == (old(fail) || old(eof) || old(pos) == |line|)
    {
      if !Good() {
        fail := true;
        c := None;
      } else if pos == |line| {
        eof, fail := true, true;
        c := None;
      } else {
        c := Some(line[pos]);
        pos := pos + 1;
      }
    }

    /** `ignore(1)`: discards one character; at the end of the line sets eofbit only. */
    method IgnoreOne()
      requires Valid()
      modifies this
      ensures Valid()
      ensures pos == if old(Good()) && old(pos) < |line| then old(pos) + 1 else old(pos)
      ensures eof == (old(eof) || (old(Good()) && old(pos) == |line|))
      ensures fail == (old(fail) || old(eof))
    {
      if !Good() {
        fail := true;
      } else if pos < |line| {
        pos := pos + 1;
      } else {
        eof := true;
      }
    }

    /**
     * `input >> s` for a `std::string s`: skips whitespace, then extracts characters
     * up to the next whitespace, which stays in the stream. Reaching the end sets
     * eofbit; extracting nothing sets failbit.
     */
    method ExtractWord() returns (w: string)
      requires Valid()
      modifies this
      ensures Valid()
      ensures old(Good()) ==> w == Word(line, old(pos)) && pos == WordEnd(line, old(pos))
      ensures !old(Good()) ==> w == [] && pos == old(pos)
      ensures eof == (old(eof) || (old(Good()) && pos == |line|))
      ensures fail == (old(fail) || old(eof) || w == [])
    {
      if !Good() {
        fail := true;
        w := [];
      } else {
        w := Word(line, pos);
        pos := WordEnd(line, pos);
        if pos == |line| {
          eof := true;
        }
        if w == [] {
          fail := true;
        }
      }
    }

    /**
     * `std::getline(input, s, delim)`: extracts characters up to `delim`, which is
     * consumed but not stored, or up to the end of the line, which sets eofbit.
     * Failbit is set only when nothing at all, not even the delimiter, was extracted.
     */
    method GetLine(delim: char) returns (s: string)
      requires Valid()
      modifies this
      ensures Valid()
      ensures !old(Good()) ==> s == [] && pos == old(pos)
      ensures old(Good()) ==>
        var e := old(pos) + |s|;
        && e <= |line| && s == line[old(pos)..e]
        && (e < |line| ==> line[e] == delim)
        && pos == (if e < |line| then e + 1 else |line|)
      ensures delim !in s
      ensures eof == (old(eof) || (old(Good()) && old(pos) + |s| == |line|))
      ensures fail == (old(fail) || old(eof) || old(pos) == |line|)
    {
      if !Good() {
        fail := true;
        s := [];
      } else {
        var start := pos;
        var e := FirstFrom(line, start, c => c == delim);
        s := line[start..e];
        if e < |line| {
          pos := e + 1;
        } else {
          pos := |line|;
          eof := true;
          if start == |line| {
            fail := true;
          }
        }
      }
    }
  }
}
