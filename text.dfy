/**
 * The two string operations the task search relies on: lower-casing
 * (`toLowerCase`, restricted here to ASCII) and substring containment
 * (`includes`).
 */
module Text {

  /** Lower-cases one ASCII letter; every other character is kept. */
  function LowerChar(c: char): (d: char)
    ensures !('A' <= d <= 'Z')
    ensures ('a' <= c <= 'z' || !('A' <= c <= 'Z')) ==> d == c
    ensures 'A' <= c <= 'Z' ==> 'a' <= d <= 'z' && d as int - c as int == 'a' as int - 'A' as int
  {
    if 'A' <= c <= 'Z' then (c as int - 'A' as int + 'a' as int) as char else c
  }

  /** `toLowerCase`: lower-cases every character, keeping length and positions. */
  function LowerStr(s: string): (r: string)
    ensures |r| == |s|
    ensures forall i :: 0 <= i < |s| ==> r[i] == LowerChar(s[i])
  {
    if s == [] then [] else [LowerChar(s[0])] + LowerStr(s[1..])
  }

  /** Lower-casing twice is lower-casing once. */
  lemma {:induction false} LowerStrIdempotent(s: string)
    ensures LowerStr(LowerStr(s)) == LowerStr(s)
  {
    var r := LowerStr(s);
    assert forall i :: 0 <= i < |r| ==> LowerStr(r)[i] == r[i];
  }

  /** `sub` occurs in `s` starting at position `i`. */
  predicate OccursAt(s: string, sub: string, i: int)
  {
    0 <= i && i + |sub| <= |s| && s[i..i + |sub|] == sub
  }

  /** `sub` occurs somewhere in `s`. */
  ghost predicate Occurs(s: string, sub: string)
  {
    exists i :: OccursAt(s, sub, i)
  }

  /** `s.includes(sub)`: tries each start position from the left. */
  function Includes(s: string, sub: string): (r: bool)
    ensures r ==> |sub| <= |s|
    ensures |sub| == |s| ==> (r <==> sub == s)
    decreases |s|
  {
    if |sub| > |s| then false
    else if s[..|sub|] == sub then true
    else Includes(s[1..], sub)
  }

  /** `Includes` holds exactly when `sub` occurs at some position of `s`. */
  lemma {:induction false} IncludesIff(s: string, sub: string)
    ensures Includes(s, sub) <==> Occurs(s, sub)
    decreases |s|
  {
    if |sub| > |s| {
      assert forall i :: !OccursAt(s, sub, i);
    } else if s[..|sub|] == sub {
      assert OccursAt(s, sub, 0);
    } else {
      IncludesIff(s[1..], sub);
      forall i | OccursAt(s, sub, i)
        ensures i >= 1 && OccursAt(s[1..], sub, i - 1)
      {
        assert s[1..][i - 1..i - 1 + |sub|] == s[i..i + |sub|];
      }
      forall j | OccursAt(s[1..], sub, j)
        ensures OccursAt(s, sub, j + 1)
      {
        assert s[1..][j..j + |sub|] == s[j + 1..j + 1 + |sub|];
      }
    }
  }

  /** Every string includes the empty string. */
  lemma {:induction false} IncludesEmpty(s: string)
    ensures Includes(s, "")
  {
    assert s[..0] == "";
  }

  /** Every string includes itself. */
  lemma {:induction false} IncludesSelf(s: string)
    ensures Includes(s, s)
  {
    assert s[..|s|] == s;
  }

  /** Containment is transitive: if `a` includes `b` and `b` includes `c`, `a` includes `c`. */
  lemma {:induction false} IncludesTransitive(a: string, b: string, c: string)
    requires Includes(a, b) && Includes(b, c)
    ensures Includes(a, c)
  {
    IncludesIff(a, b);
    IncludesIff(b, c);
    var i :| OccursAt(a, b, i);
    var j :| OccursAt(b, c, j);
    forall k | 0 <= k < |c|
      ensures a[i + j..i + j + |c|][k] == c[k]
    {
      assert c[k] == b[j + k] == a[i + j + k];
    }
    assert a[i + j..i + j + |c|] == c;
    assert OccursAt(a, c, i + j);
    IncludesIff(a, c);
  }

  /** A string that includes a non-empty `sub` contains its first character. */
  lemma {:induction false} IncludesFirstChar(s: string, sub: string)
    requires sub != [] && Includes(s, sub)
    ensures sub[0] in s
  {
    IncludesIff(s, sub);
    var i :| OccursAt(s, sub, i);
    assert s[i] == s[i..i + |sub|][0] == sub[0];
  }
}
