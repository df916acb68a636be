/** ASCII models of the JavaScript string operations the application relies on:
    String.prototype.trim, String.prototype.toLowerCase and Array.prototype.join.
    Email normalisation (trim, then lower-case) is built from the first two. */
module Text {

  /** The characters String.prototype.trim strips, restricted to ASCII:
      tab, line feed, vertical tab, form feed, carriage return and space. */
  predicate IsSpace(c: char) {
    c == ' ' || ('\t' <= c <= '\r')
  }

  predicate IsUpper(c: char) {
    'A' <= c <= 'Z'
  }

  predicate AllSpaces(s: string) {
    forall i :: 0 <= i < |s| ==> IsSpace(s[i])
  }

  predicate AllLower(s: string) {
    forall i :: 0 <= i < |s| ==> !IsUpper(s[i])
  }

  /** Neither end of `s` is a space character: what trimming leaves behind. */
  predicate Trimmed(s: string) {
    s == [] || (!IsSpace(s[0]) && !IsSpace(s[|s| - 1]))
  }

  function LowerChar(c: char): (d: char)
    ensures !IsUpper(d)
    ensures IsSpace(d) <==> IsSpace(c)
    ensures !IsUpper(c) ==> d == c
  {
    if IsUpper(c) then (c as int + 32) as char else c
  }

  /** LowerChar maps two characters to the same one exactly when they are equal
      up to ASCII letter case. */
  lemma LowerCharCaseVariant(c: char, d: char)
    ensures LowerChar(c) == LowerChar(d) <==>
      c == d || (IsUpper(c) && d as int == c as int + 32) || (IsUpper(d) && c as int == d as int + 32)
  {
  }

  /** Removes leading spaces: the result does not start with a space, and it
      is the suffix of `s` left after them (`TrimStartSuffix`). */
  function TrimStart(s: string): (r: string)
    ensures |r| <= |s|
    ensures r == [] || !IsSpace(r[0])
  {
    if s != [] && IsSpace(s[0]) then TrimStart(s[1..]) else s
  }

  /** Removes trailing spaces: the result does not end with a space, and it
      is the prefix of `s` left before them (`TrimEndPrefix`). */
  function TrimEnd(s: string): (r: string)
    ensures |r| <= |s|
    ensures r == [] || !IsSpace(r[|r| - 1])
    ensures s == [] || !IsSpace(s[0]) ==> Trimmed(r)
  {
    if s != [] && IsSpace(s[|s| - 1]) then TrimEnd(s[..|s| - 1]) else s
  }

  /** What TrimStart removes is a run of spaces, and what it keeps is the rest
      of `s`, unchanged. */
  lemma {:induction false} TrimStartSuffix(s: string)
    ensures var r := TrimStart(s);
      && (forall i :: 0 <= i < |r| ==> r[i] == s[|s| - |r| + i])
      && (forall i :: 0 <= i < |s| - |r| ==> IsSpace(s[i]))
  {
    if s != [] && IsSpace(s[0]) {
      var t := s[1..];
      TrimStartSuffix(t);
      var r := TrimStart(s);
      assert r == TrimStart(t);
      forall i | 0 <= i < |r|
        ensures r[i] == s[|s| - |r| + i]
      {
        assert r[i] == t[|t| - |r| + i];
      }
      forall i | 0 <= i < |s| - |r|
        ensures IsSpace(s[i])
      {
        if i > 0 {
          assert s[i] == t[i - 1];
        }
      }
    }
  }

  /** What TrimEnd removes is a run of spaces, and what it keeps is the start
      of `s`, unchanged. */
  lemma {:induction false} TrimEndPrefix(s: string)
    ensures var r := TrimEnd(s);
      && (forall i :: 0 <= i < |r| ==> r[i] == s[i])
      && (forall i :: |r| <= i < |s| ==> IsSpace(s[i]))
  {
    if s != [] && IsSpace(s[|s| - 1]) {
      var t := s[..|s| - 1];
      TrimEndPrefix(t);
      var r := TrimEnd(s);
      assert r == TrimEnd(t);
      forall i | 0 <= i < |r|
        ensures r[i] == s[i]
      {
        assert r[i] == t[i];
      }
      forall i | |r| <= i < |s|
        ensures IsSpace(s[i])
      {
        if i < |t| {
          assert s[i] == t[i];
        }
      }
    }
  }

  lemma {:induction false} TrimStartEmpty(s: string)
    ensures TrimStart(s) == [] <==> AllSpaces(s)
  {
    if s != [] && IsSpace(s[0]) {
      TrimStartEmpty(s[1..]);
      assert AllSpaces(s) <==> AllSpaces(s[1..]) by {
        assert forall i :: 0 < i < |s| ==> s[i] == s[1..][i - 1];
      }
    }
  }

  lemma {:induction false} TrimEndEmpty(s: string)
    ensures TrimEnd(s) == [] <==> AllSpaces(s)
  {
    if s != [] && IsSpace(s[|s| - 1]) {
      TrimEndEmpty(s[..|s| - 1]);
      assert AllSpaces(s) <==> AllSpaces(s[..|s| - 1]) by {
        assert forall i :: 0 <= i < |s| - 1 ==> s[i] == s[..|s| - 1][i];
      }
    }
  }

  /** String.prototype.trim. */
  function Trim(s: string): (r: string)
    ensures |r| <= |s|
    ensures Trimmed(r)
  {
    TrimEnd(TrimStart(s))
  }

  /** Trimming leaves nothing exactly when the input is all spaces. */
  lemma TrimBlank(s: string)
    ensures Trim(s) == [] <==> AllSpaces(s)
  {
    var t := TrimStart(s);
    TrimStartEmpty(s);
    TrimEndEmpty(t);
    if t != [] {
      assert !IsSpace(t[0]);
    }
  }

  /** String.prototype.toLowerCase on ASCII: upper-case letters become lower-case,
      every other character is kept, the length does not change. */
  function Lower(s: string): (r: string)
    ensures |r| == |s|
    ensures forall i :: 0 <= i < |s| ==> !IsUpper(r[i]) && (IsSpace(r[i]) <==> IsSpace(s[i]))
    ensures forall i :: 0 <= i < |s| && !IsUpper(s[i]) ==> r[i] == s[i]
    ensures Trimmed(s) ==> Trimmed(r)
  {
    seq(|s|, i requires 0 <= i < |s| => LowerChar(s[i]))
  }

  /** The normalised form of an email: `email.trim().toLowerCase()`. */
  function Normalize(email: string): (key: string)
    ensures |key| <= |email|
    ensures Trimmed(key)
    ensures forall i :: 0 <= i < |key| ==> !IsUpper(key[i])
  {
    var trimmed := Trim(email);
    Lower(trimmed)
  }

  /** Array.prototype.join: the parts in order with `sep` between neighbours. */
  function Join(parts: seq<string>, sep: string): (r: string)
    ensures parts == [] ==> r == []
    ensures |parts| == 1 ==> r == parts[0]
  {
    if |parts| == 0 then []
    else if |parts| == 1 then parts[0]
    else parts[0] + sep + Join(parts[1..], sep)
  }

  lemma TrimOfTrimmed(s: string)
    requires Trimmed(s)
    ensures Trim(s) == s
  {
  }

  lemma LowerOfLowered(s: string)
    requires forall i :: 0 <= i < |s| ==> !IsUpper(s[i])
    ensures Lower(s) == s
  {
  }

  /** Lower-casing works character by character, so it distributes over concatenation. */
  lemma LowerAppend(a: string, b: string)
    ensures Lower(a + b) == Lower(a) + Lower(b)
  {
  }

  /** Normalising an already normalised email changes nothing, so the form's
      normalised email and the store's own normalisation give the same key. */
  lemma NormalizeIdempotent(email: string)
    ensures Normalize(Normalize(email)) == Normalize(email)
  {
    NormalizeOfNormal(Normalize(email));
  }

  /** A string with no space at either end and no upper-case letter is its own
      normalised form. */
  lemma NormalizeOfNormal(s: string)
    ensures Trimmed(s) && AllLower(s) ==> Normalize(s) == s
  {
    if Trimmed(s) && AllLower(s) {
      TrimOfTrimmed(s);
      LowerOfLowered(s);
    }
  }

  lemma {:induction false} TrimStartLower(s: string)
    ensures TrimStart(Lower(s)) == Lower(TrimStart(s))
  {
    if s != [] && IsSpace(s[0]) {
      assert Lower(s)[1..] == Lower(s[1..]);
      TrimStartLower(s[1..]);
    }
  }

  lemma {:induction false} TrimEndLower(s: string)
    ensures TrimEnd(Lower(s)) == Lower(TrimEnd(s))
  {
    if s != [] && IsSpace(s[|s| - 1]) {
      LowerDropLast(s);
      TrimEndLower(s[..|s| - 1]);
    } else {
      var l := Lower(s);
      assert l == [] || !IsSpace(l[|l| - 1]);
    }
  }

  lemma LowerDropLast(s: string)
    requires s != []
    ensures Lower(s)[..|s| - 1] == Lower(s[..|s| - 1])
  {
  }

  /** Trimming and lower-casing commute on ASCII. */
  lemma TrimLowerCommute(s: string)
    ensures Trim(Lower(s)) == Lower(Trim(s))
  {
    TrimStartLower(s);
    TrimEndLower(TrimStart(s));
  }

  /** Two emails that differ only in letter case have the same normalised form. */
  lemma NormalizeIgnoresCase(a: string, b: string)
    requires Lower(a) == Lower(b)
    ensures Normalize(a) == Normalize(b)
  {
    TrimLowerCommute(a);
    TrimLowerCommute(b);
  }

  lemma {:induction false} TrimStartSkipsSpaces(pre: string, s: string)
    requires AllSpaces(pre)
    ensures TrimStart(pre + s) == TrimStart(s)
  {
    if pre == [] {
      assert pre + s == s;
    } else {
      assert (pre + s)[0] == pre[0] && (pre + s)[1..] == pre[1..] + s;
      TrimStartSkipsSpaces(pre[1..], s);
    }
  }

  lemma {:induction false} TrimEndSkipsSpaces(s: string, post: string)
    requires AllSpaces(post)
    ensures TrimEnd(s + post) == TrimEnd(s)
  {
    if post == [] {
      assert s + post == s;
    } else {
      var n := |s + post|;
      assert (s + post)[n - 1] == post[|post| - 1];
      assert (s + post)[..n - 1] == s + post[..|post| - 1];
      TrimEndSkipsSpaces(s, post[..|post| - 1]);
    }
  }

  lemma {:induction false} TrimStartAppend(s: string, t: string)
    requires TrimStart(s) != []
    ensures TrimStart(s + t) == TrimStart(s) + t
  {
    if s != [] && IsSpace(s[0]) {
      assert (s + t)[1..] == s[1..] + t;
      TrimStartAppend(s[1..], t);
    } else {
      assert (s + t)[0] == s[0];
    }
  }

  lemma AllSpacesAppend(a: string, b: string)
    requires AllSpaces(a) && AllSpaces(b)
    ensures AllSpaces(a + b)
  {
  }

  lemma TrimStartOfSpaces(s: string)
    requires AllSpaces(s)
    ensures TrimStart(s) == []
  {
    TrimStartSkipsSpaces(s, []);
    assert s + [] == s;
  }

  lemma AppendAssociative(a: string, b: string, c: string)
    ensures a + b + c == a + (b + c)
  {
  }

  /** Leading spaces do not change the trimmed form. */
  lemma TrimIgnoresLeading(pre: string, s: string)
    requires AllSpaces(pre)
    ensures Trim(pre + s) == Trim(s)
  {
    TrimStartSkipsSpaces(pre, s);
  }

  /** Trailing spaces do not change the trimmed form. */
  lemma TrimIgnoresTrailing(s: string, post: string)
    requires AllSpaces(post)
    ensures Trim(s + post) == Trim(s)
  {
    if TrimStart(s) == [] {
      TrimStartEmpty(s);
      AllSpacesAppend(s, post);
      TrimStartOfSpaces(s + post);
    } else {
      TrimStartAppend(s, post);
      TrimEndSkipsSpaces(TrimStart(s), post);
    }
  }

  /** Spaces around an email do not change its trimmed form. */
  lemma TrimIgnoresPadding(pre: string, s: string, post: string)
    requires AllSpaces(pre) && AllSpaces(post)
    ensures Trim(pre + s + post) == Trim(s)
  {
    AppendAssociative(pre, s, post);
    TrimIgnoresLeading(pre, s + post);
    TrimIgnoresTrailing(s, post);
  }

  /** Any variant of an email that differs only in letter case and in spaces
      around it normalises to the same key. */
  lemma NormalizeVariant(email: string, pre: string, variant: string, post: string)
    requires AllSpaces(pre) && AllSpaces(post)
    requires Lower(variant) == Lower(email)
    ensures Normalize(pre + variant + post) == Normalize(email)
  {
    TrimIgnoresPadding(pre, variant, post);
    NormalizeIgnoresCase(variant, email);
  }

  /** An email made only of spaces normalises to the empty key. */
  lemma NormalizeBlank(email: string)
    requires AllSpaces(email)
    ensures Normalize(email) == []
  {
    TrimBlank(email);
  }

  /** Joining two non-empty lists puts one separator between their joins:
      the parts keep their order. */
  lemma {:induction false} JoinAppend(a: seq<string>, b: seq<string>, sep: string)
    requires a != [] && b != []
    ensures Join(a + b, sep) == Join(a, sep) + sep + Join(b, sep)
  {
    if |a| == 1 {
      assert (a + b)[1..] == b;
    } else {
      assert (a + b)[1..] == a[1..] + b;
      JoinAppend(a[1..], b, sep);
    }
  }
}
