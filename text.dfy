/**
 * Text primitives the router relies on: ASCII case folding (the `str.lower()`
 * applied to the poet's output) and substring search (Python's `sub in text`).
 */
module Text {

  /** An ASCII capital letter, the only characters `Lower` changes. */
  predicate IsUpperAscii(c: char) {
    'A' <= c <= 'Z'
  }

  /** An ASCII small letter, the only characters `Upper` changes. */
  predicate IsLowerAscii(c: char) {
    'a' <= c <= 'z'
  }

  function LowerChar(c: char): (d: char)
    ensures !IsUpperAscii(d)
    ensures IsUpperAscii(c) ==> IsLowerAscii(d) && d as int == c as int + 32
    ensures !IsUpperAscii(c) ==> d == c
  {
    if IsUpperAscii(c) then (c as int + 32) as char else c
  }

  function UpperChar(c: char): (d: char)
    ensures !IsLowerAscii(d)
    ensures IsLowerAscii(c) ==> IsUpperAscii(d) && d as int == c as int - 32
    ensures !IsLowerAscii(c) ==> d == c
  {
    if IsLowerAscii(c) then (c as int - 32) as char else c
  }

  /** A string with no ASCII capital letter in it. */
  ghost predicate IsLowercase(s: string) {
    forall i :: 0 <= i < |s| ==> !IsUpperAscii(s[i])
  }

  /**
   * The text with every ASCII capital letter replaced by its small letter:
   * same length, each character folded on its own, nothing capital left.
   */
  function Lower(s: string): (r: string)
    ensures |r| == |s|
    ensures forall i :: 0 <= i < |s| ==> r[i] == LowerChar(s[i])
    ensures IsLowercase(r)
  {
    if s == [] then [] else [LowerChar(s[0])] + Lower(s[1..])
  }

  /** The text with every ASCII small letter replaced by its capital letter. */
  function Upper(s: string): (r: string)
    ensures |r| == |s|
    ensures forall i :: 0 <= i < |s| ==> r[i] == UpperChar(s[i])
  {
    if s == [] then [] else [UpperChar(s[0])] + Upper(s[1..])
  }

  /** Folding leaves a text that is already lowercase as it is. */
  lemma {:induction false} LowerOfLowercase(s: string)
    requires IsLowercase(s)
    ensures Lower(s) == s
  {
    if s != [] {
      LowerOfLowercase(s[1..]);
    }
  }

  /** Folding twice is folding once. */
  lemma LowerIdempotent(s: string)
    ensures Lower(Lower(s)) == Lower(s)
  {
    LowerOfLowercase(Lower(s));
  }

  /** Folding an upper-cased text gives the same as folding the text itself. */
  lemma {:induction false} LowerOfUpper(s: string)
    ensures Lower(Upper(s)) == Lower(s)
  {
    if s != [] {
      LowerOfUpper(s[1..]);
      assert Upper(s) == [UpperChar(s[0])] + Upper(s[1..]);
      assert Lower(Upper(s)) == [LowerChar(UpperChar(s[0]))] + Lower(Upper(s[1..]));
    }
  }

  /** Folding works character by character, so it distributes over concatenation. */
  lemma LowerConcat(a: string, b: string)
    ensures Lower(a + b) == Lower(a) + Lower(b)
  {
    var l, r := Lower(a + b), Lower(a) + Lower(b);
    assert |l| == |r|;
    forall i | 0 <= i < |l|
      ensures l[i] == r[i]
    {
      if i < |a| {
        assert (a + b)[i] == a[i];
      } else {
        assert (a + b)[i] == b[i - |a|];
      }
    }
  }

  /** `sub` occurs in `text` starting at position `i`. */
  ghost predicate OccursAt(text: string, sub: string, i: int) {
    0 <= i && i + |sub| <= |text| && text[i..i + |sub|] == sub
  }

  /**
   * Python's `sub in text`: tries each start position from the left.
   * The empty string is contained in every text.
   */
  predicate Contains(text: string, sub: string)
    decreases |text|
  {
    if |text| < |sub| then false
    else if text[..|sub|] == sub then true
    else Contains(text[1..], sub)
  }

  /** `Contains` holds exactly when `sub` occurs at some position of `text`. */
  lemma {:induction false} ContainsIffOccurs(text: string, sub: string)
    ensures Contains(text, sub) <==> exists i :: OccursAt(text, sub, i)
    decreases |text|
  {
    if |text| < |sub| {
      forall i ensures !OccursAt(text, sub, i) { }
    } else if text[..|sub|] == sub {
      assert OccursAt(text, sub, 0);
    } else {
      var tail := text[1..];
      ContainsIffOccurs(tail, sub);
      if Contains(tail, sub) {
        var i :| OccursAt(tail, sub, i);
        assert text[i + 1..i + 1 + |sub|] == tail[i..i + |sub|];
        assert OccursAt(text, sub, i + 1);
      } else {
        forall i | OccursAt(text, sub, i)
          ensures false
        {
          if i > 0 {
            assert tail[i - 1..i - 1 + |sub|] == text[i..i + |sub|];
            assert OccursAt(tail, sub, i - 1);
          }
        }
      }
    }
  }

  /** A keyword placed anywhere inside a text is contained in it. */
  lemma ContainsInfix(p: string, sub: string, q: string)
    ensures Contains(p + sub + q, sub)
  {
    var text := p + sub + q;
    assert text[|p|..|p| + |sub|] == sub;
    assert OccursAt(text, sub, |p|);
    ContainsIffOccurs(text, sub);
  }

  /** A text that lacks some character of `sub` does not contain `sub`. */
  lemma ContainsNeedsChar(text: string, sub: string, k: nat)
    requires k < |sub| && sub[k] !in text
    ensures !Contains(text, sub)
  {
    ContainsIffOccurs(text, sub);
  }
}
