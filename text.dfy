/** The few JavaScript string operations the application relies on, restricted
    to ASCII: `toLowerCase`, `trim`, `includes`, `split(' ')` and `join(' ')`. */
module Text {

  /** An ASCII capital letter, the only characters `Lower` changes. */
  predicate IsUpper(c: char) {
    'A' <= c <= 'Z'
  }

  function LowerChar(c: char): char {
    if IsUpper(c) then (c as int + 32) as char else c
  }

  /** `s.toLowerCase()` on ASCII text: each capital becomes its small letter
      (32 code points further on) and every other character stays. */
  function Lower(s: string): (r: string)
    ensures |r| == |s|
    ensures forall i :: 0 <= i < |s| ==> !IsUpper(r[i])
    ensures forall i :: 0 <= i < |s| ==>
              (IsUpper(s[i]) ==> r[i] as int == s[i] as int + 32) && (!IsUpper(s[i]) ==> r[i] == s[i])
  {
    seq(|s|, i requires 0 <= i < |s| => LowerChar(s[i]))
  }

  /** The white space `trim` removes, restricted to the ASCII control characters and the space. */
  predicate IsSpace(c: char) {
    c == ' ' || c == '\t' || c == '\n' || c == '\r' || c == '\U{000B}' || c == '\U{000C}'
  }

  predicate AllSpace(s: string) {
    forall i :: 0 <= i < |s| ==> IsSpace(s[i])
  }

  /** `s` without its leading white space: a suffix of `s` that starts with a
      non-space character, and everything cut off is white space. */
  function TrimStart(s: string): (r: string)
    ensures |r| <= |s| && r == s[|s| - |r|..]
    ensures r == [] || !IsSpace(r[0])
    ensures AllSpace(s[..|s| - |r|])
    decreases |s|
  {
    if s != [] && IsSpace(s[0]) then TrimStart(s[1..]) else s
  }

  /** `s` without its trailing white space: a prefix of `s` that ends with a
      non-space character, and everything cut off is white space. */
  function TrimEnd(s: string): (r: string)
    ensures |r| <= |s| && r == s[..|r|]
    ensures r == [] || !IsSpace(r[|r| - 1])
    ensures AllSpace(s[|r|..])
    decreases |s|
  {
    if s != [] && IsSpace(s[|s| - 1]) then
      var front := s[..|s| - 1];
      var r := TrimEnd(front);
      assert front[..|r|] == s[..|r|];
      assert forall i :: |r| <= i < |s| - 1 ==> s[i] == front[i];
      r
    else s
  }

  /** `s.trim()`: a contiguous piece of `s` that neither starts nor ends with
      white space, with only white space cut off on either side. */
  function Trim(s: string): (r: string)
    ensures r == [] || (!IsSpace(r[0]) && !IsSpace(r[|r| - 1]))
    ensures CutAtSpaces(s, r)
  {
    var t := TrimStart(s);
    var r := TrimEnd(t);
    TrimSlice(s, t, r);
    r
  }

  /** `r` is a slice of `s` with only white space before and after it. */
  ghost predicate CutAtSpaces(s: string, r: string) {
    exists i :: 0 <= i <= |s| - |r| && r == s[i..i + |r|] && AllSpace(s[..i]) && AllSpace(s[i + |r|..])
  }

  /** A prefix `r` of a suffix `t` of `s`, each cut off at white space, is a
      slice of `s` with white space on both sides. */
  lemma TrimSlice(s: string, t: string, r: string)
    requires |t| <= |s| && t == s[|s| - |t|..] && AllSpace(s[..|s| - |t|]) && (t == [] || !IsSpace(t[0]))
    requires |r| <= |t| && r == t[..|r|] && AllSpace(t[|r|..]) && (r == [] || !IsSpace(r[|r| - 1]))
    ensures r == [] || (!IsSpace(r[0]) && !IsSpace(r[|r| - 1]))
    ensures CutAtSpaces(s, r)
  {
    var cut := |s| - |t|;
    assert s[cut + |r|..] == t[|r|..];
    assert r == s[cut..cut + |r|];
    if r != [] {
      assert r[0] == t[0];
    }
  }

  /** Trimming leaves nothing exactly when the text is all white space. */
  lemma TrimEmptyIff(s: string)
    ensures Trim(s) == [] <==> AllSpace(s)
  {
    var t := TrimStart(s);
    if !AllSpace(s) {
      var k :| 0 <= k < |s| && !IsSpace(s[k]);
      assert t[0] == s[|s| - |t|];
    }
  }

  /** A trimmed text begins and ends with something other than white space. */
  lemma TrimTrimmed(s: string)
    ensures var r := Trim(s); r == [] || (!IsSpace(r[0]) && !IsSpace(r[|r| - 1]))
  {
    var t := TrimStart(s);
    var r := TrimEnd(t);
    if r != [] {
      assert r[0] == t[0];
    }
  }

  /** A text without white space at either end is left as it is by trimming. */
  lemma TrimFixed(s: string)
    requires s == [] || (!IsSpace(s[0]) && !IsSpace(s[|s| - 1]))
    ensures Trim(s) == s
  {
  }

  /** Trimming only removes characters. */
  lemma TrimChars(s: string)
    ensures forall c :: c in Trim(s) ==> c in s
  {
    var t := TrimStart(s);
    var r := TrimEnd(t);
    var cut := |s| - |t|;
    assert r == s[cut..cut + |r|] by {
      assert r == t[..|r|] && t == s[cut..];
    }
    SliceChars(s, cut, cut + |r|);
  }

  lemma SliceChars(s: string, i: nat, j: nat)
    requires i <= j <= |s|
    ensures forall c :: c in s[i..j] ==> c in s
  {
    forall c | c in s[i..j] ensures c in s {
      var k :| 0 <= k < j - i && s[i..j][k] == c;
      assert s[i + k] == c;
    }
  }

  /** Trimming keeps every character that is not white space. */
  lemma TrimKeeps(s: string, c: char)
    requires c in s && !IsSpace(c)
    ensures c in Trim(s)
  {
    var k :| 0 <= k < |s| && s[k] == c;
    var t := TrimStart(s);
    var cut := |s| - |t|;
    assert k >= cut;
    assert t[k - cut] == c;
    var r := TrimEnd(t);
    assert k - cut < |r|;
    assert r[k - cut] == c;
  }

  /** Text without capital letters is its own lower-case form. */
  lemma LowerNoUpper(s: string)
    requires forall c :: c in s ==> !IsUpper(c)
    ensures Lower(s) == s
  {
    forall i | 0 <= i < |s| ensures Lower(s)[i] == s[i] {
      assert s[i] in s;
    }
  }

  /** `haystack.includes(needle)`: the needle occurs at some position. */
  predicate Contains(haystack: string, needle: string)
    ensures Contains(haystack, needle) <==> exists i :: 0 <= i <= |haystack| && needle <= haystack[i..]
    decreases |haystack|
  {
    assert haystack[0..] == haystack;
    if needle <= haystack then true
    else if haystack == [] then false
    else
      var tail := haystack[1..];
      assert forall i :: 0 <= i <= |tail| ==> tail[i..] == haystack[i + 1..];
      assert forall i :: 1 <= i <= |haystack| ==> haystack[i..] == tail[i - 1..];
      Contains(tail, needle)
  }

  /** A one-character needle is found exactly when the character occurs. */
  lemma {:induction false} ContainsCharIff(haystack: string, c: char)
    ensures Contains(haystack, [c]) <==> c in haystack
    decreases |haystack|
  {
    if haystack != [] {
      ContainsCharIff(haystack[1..], c);
      assert haystack == [haystack[0]] + haystack[1..];
    }
  }

  /** The empty needle occurs in every text. */
  lemma ContainsEmpty(haystack: string)
    ensures Contains(haystack, [])
  {
  }

  /** A text includes each of its prefixes. */
  lemma ContainsPrefix(haystack: string, needle: string)
    requires needle <= haystack
    ensures Contains(haystack, needle)
  {
    assert haystack[0..] == haystack;
  }

  /** A needle found in the back part is found in the whole text. */
  lemma ContainsInSuffix(front: string, back: string, needle: string)
    requires Contains(back, needle)
    ensures Contains(front + back, needle)
  {
    var i :| 0 <= i <= |back| && needle <= back[i..];
    assert (front + back)[|front| + i..] == back[i..];
  }

  /** `s.split(sep)` for a one-character separator: always at least one piece
      (`"".split(' ')` is `[""]`), and no piece contains the separator. */
  function Split(s: string, sep: char): (pieces: seq<string>)
    ensures |pieces| >= 1
    ensures forall k :: 0 <= k < |pieces| ==> sep !in pieces[k]
    decreases |s|
  {
    if s == [] then [[]]
    else
      var rest := Split(s[1..], sep);
      if s[0] == sep then [[]] + rest
      else [[s[0]] + rest[0]] + rest[1..]
  }

  /** `pieces.join(sep)`: begins with the first piece. */
  function Join(pieces: seq<string>, sep: string): (joined: string)
    ensures pieces != [] ==> pieces[0] <= joined
    decreases |pieces|
  {
    if |pieces| == 0 then []
    else if |pieces| == 1 then pieces[0]
    else pieces[0] + sep + Join(pieces[1..], sep)
  }

  /** Joining the pieces of a split with the separator gives back the text. */
  lemma {:induction false} JoinSplit(s: string, sep: char)
    ensures Join(Split(s, sep), [sep]) == s
    decreases |s|
  {
    if s != [] {
      var rest := Split(s[1..], sep);
      JoinSplit(s[1..], sep);
      if s[0] == sep {
        assert Split(s, sep) == [[]] + rest;
        assert ([[]] + rest)[1..] == rest;
      } else {
        var ps := Split(s, sep);
        assert ps == [[s[0]] + rest[0]] + rest[1..];
        if |rest| == 1 {
          assert Join(rest, [sep]) == rest[0];
        } else {
          assert ps[1..] == rest[1..];
          assert Join(rest, [sep]) == rest[0] + [sep] + Join(rest[1..], [sep]);
        }
      }
    }
  }

  /** A text begins every text it is joined to the front of. */
  lemma PrefixOfJoined(a: string, b: string)
    ensures a <= a + b
  {
  }

  /** A text and the start of what follows it begin the whole, however the
      three are grouped. */
  lemma PrefixOfNested(a: string, b: string, c: string)
    ensures a + (b + c) == (a + b) + c
    ensures a + b <= a + (b + c)
  {
    assert a + (b + c) == (a + b) + c;
  }

  /** A separator between two texts separates their pieces. */
  lemma {:induction false} SplitAround(a: string, b: string, sep: char)
    ensures Split(a + [sep] + b, sep) == Split(a, sep) + Split(b, sep)
    decreases |a|
  {
    if a == [] {
      assert a + [sep] + b == [sep] + b;
      SplitCons(sep, b, sep);
    } else {
      var c, tail := a[0], a[1..];
      assert a == [c] + tail;
      assert a + [sep] + b == [c] + (tail + [sep] + b);
      SplitAround(tail, b, sep);
      SplitAroundStep(c, tail, b, sep);
    }
  }

  lemma SplitAroundStep(c: char, tail: string, b: string, sep: char)
    requires Split(tail + [sep] + b, sep) == Split(tail, sep) + Split(b, sep)
    ensures Split([c] + (tail + [sep] + b), sep) == Split([c] + tail, sep) + Split(b, sep)
  {
    SplitCons(c, tail, sep);
    SplitCons(c, tail + [sep] + b, sep);
    if c == sep {
      ConsAssoc([], Split(tail, sep), Split(b, sep));
    } else {
      ExtendFirst([c], Split(tail, sep), Split(b, sep));
    }
  }

  /** Consing onto a concatenation conses onto its first part. */
  lemma ConsAssoc(x: string, front: seq<string>, back: seq<string>)
    ensures [x] + (front + back) == ([x] + front) + back
  {
  }

  /** Extending the first piece of a concatenation extends the first piece
      of its first part. */
  lemma ExtendFirst(head: string, front: seq<string>, back: seq<string>)
    requires front != []
    ensures var rest := front + back;
            [head + rest[0]] + rest[1..] == ([head + front[0]] + front[1..]) + back
  {
    var rest := front + back;
    assert rest[1..] == front[1..] + back;
  }

  /** `Split` of a text that starts with the character `c`. */
  lemma SplitCons(c: char, s: string, sep: char)
    ensures Split([c] + s, sep) ==
            if c == sep then [[]] + Split(s, sep) else [[c] + Split(s, sep)[0]] + Split(s, sep)[1..]
  {
    assert ([c] + s)[1..] == s;
  }

  /** A text without the separator is a single piece. */
  lemma {:induction false} SplitWhole(w: string, sep: char)
    requires sep !in w
    ensures Split(w, sep) == [w]
    decreases |w|
  {
    if w != [] {
      assert w[1..] == w[1..] && sep !in w[1..] by {
        forall c | c in w[1..] ensures c in w { var k :| 0 <= k < |w[1..]| && w[1..][k] == c; assert w[k + 1] == c; }
      }
      SplitWhole(w[1..], sep);
      assert [w[0]] + w[1..] == w;
    }
  }

  /** Joining one more piece adds the separator and that piece. */
  lemma {:induction false} JoinSnoc(pieces: seq<string>, last: string, sep: string)
    requires pieces != []
    ensures Join(pieces + [last], sep) == Join(pieces, sep) + sep + last
    decreases |pieces|
  {
    if |pieces| == 1 {
      assert (pieces + [last])[1..] == [last];
    } else {
      assert (pieces + [last])[1..] == pieces[1..] + [last];
      JoinSnoc(pieces[1..], last, sep);
    }
  }
}
