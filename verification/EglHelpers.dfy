/**
 check_egl_extension (libwlblur/src/egl_helpers.c): whether a name is one of the space-separated
 tokens of an EGL extension string (section 3.3 of EGL 1.5), found by skipping from hit to hit.
 */
module EglHelpers {
  import opened Wrappers

  ghost predicate OccursAt(s: string, name: string, i: nat) {
    i + |name| <= |s| && s[i..i + |name|] == name
  }

  /** An occurrence with a space or an end of the string on either side. */
  ghost predicate Delimited(s: string, name: string, i: nat) {
    && OccursAt(s, name, i)
    && (i == 0 || s[i - 1] == ' ')
    && (i + |name| == |s| || s[i + |name|] == ' ')
  }

  /** The string cut at every space. */
  function Tokens(s: string): (tokens: seq<string>)
    ensures tokens != []
  {
    if s == "" then [""]
    else
      var rest := Tokens(s[1..]);
      if s[0] == ' ' then [""] + rest else [[s[0]] + rest[0]] + rest[1..]
  }

  lemma {:induction false} FirstToken(s: string, name: string)
    requires ' ' !in name
    ensures Tokens(s)[0] == name <==> Delimited(s, name, 0)
  {
    if s != "" {
      if s[0] == ' ' {
        assert name != "" ==> name[0] in name && !OccursAt(s, name, 0);
      } else if name == "" {
        assert Tokens(s)[0] != "";
      } else {
        FirstToken(s[1..], name[1..]);
        assert name == [name[0]] + name[1..];
        assert OccursAt(s, name, 0) <==> s[0] == name[0] && OccursAt(s[1..], name[1..], 0);
      }
    }
  }

  lemma DelimitedTail(s: string, name: string, i: nat)
    requires s != "" && i > 0
    ensures Delimited(s, name, i) <==> Delimited(s[1..], name, i - 1) && (i == 1 ==> s[0] == ' ')
  {
    if i + |name| <= |s| {
      assert s[1..][i - 1..i - 1 + |name|] == s[i..i + |name|];
    }
  }

  lemma {:induction false} LaterToken(s: string, name: string)
    requires ' ' !in name
    ensures name in Tokens(s)[1..] <==> exists i | i > 0 :: Delimited(s, name, i)
  {
    if s != "" {
      var tail := s[1..];
      LaterToken(tail, name);
      FirstToken(tail, name);
      forall i | i > 0
        ensures Delimited(s, name, i) <==> Delimited(tail, name, i - 1) && (i == 1 ==> s[0] == ' ')
      {
        DelimitedTail(s, name, i);
      }
      assert Tokens(tail) == [Tokens(tail)[0]] + Tokens(tail)[1..];
      if i :| i > 0 && Delimited(tail, name, i) {
        assert Delimited(s, name, i + 1);
      }
      if s[0] == ' ' && Delimited(tail, name, 0) {
        assert Delimited(s, name, 1);
      }
    }
  }

  /** A space-free name is a token exactly where it occurs between delimiters. */
  lemma TokenIffDelimited(s: string, name: string)
    requires ' ' !in name
    ensures name in Tokens(s) <==> exists i: nat :: Delimited(s, name, i)
  {
    FirstToken(s, name);
    LaterToken(s, name);
    assert Tokens(s) == [Tokens(s)[0]] + Tokens(s)[1..];
    if i: nat :| Delimited(s, name, i) {
      assert i == 0 || i > 0;
    }
  }

  /** strstr from an offset: the first occurrence, if any. */
  method Strstr(s: string, name: string, from: nat) returns (hit: Option<nat>)
    requires from <= |s|
    ensures hit.None? ==> forall i: nat | i >= from :: !OccursAt(s, name, i)
    ensures hit.Some? ==>
              && hit.value >= from && OccursAt(s, name, hit.value)
              && forall i | from <= i < hit.value :: !OccursAt(s, name, i)
  {
    var i := from;
    while i + |name| <= |s|
      invariant from <= i <= |s| + 1
      invariant forall k | from <= k < i :: !OccursAt(s, name, k)
    {
      if s[i..i + |name|] == name {
        return Some(i);
      }
      i := i + 1;
    }
    return None;
  }

  /**
   Null strings are None. For an empty name the loop only ends if the very first position
   matches, so that is what callers owe it; they all pass fixed, non-empty names.
   */
  method CheckExtension(exts: Option<string>, name: Option<string>) returns (found: bool)
    requires exts.Some? && name == Some("") ==> exts.value == "" || exts.value[0] == ' '
    ensures exts.None? || name.None? ==> !found
    ensures exts.Some? && name.Some? && found ==> exists i: nat :: Delimited(exts.value, name.value, i)
    ensures exts.Some? && name.Some? && ' ' !in name.value ==> (found <==> name.value in Tokens(exts.value))
  {
    if exts.None? || name.None? {
      return false;
    }
    var s, n := exts.value, name.value;
    if ' ' !in n {
      TokenIffDelimited(s, n);
    }
    assert n == "" ==> OccursAt(s, n, 0);
    var pos := 0;
    while true
      invariant pos <= |s|
      invariant n == "" ==> pos == 0
      invariant ' ' !in n ==> forall i | 0 <= i < pos :: !Delimited(s, n, i)
      decreases |s| - pos
    {
      var hit := Strstr(s, n, pos);
      if hit.None? {
        return false;
      }
      var p := hit.value;
      if (p == 0 || s[p - 1] == ' ') && (p + |n| == |s| || s[p + |n|] == ' ') {
        assert Delimited(s, n, p);
        return true;
      }
      forall i | p < i < p + |n| && ' ' !in n
        ensures !Delimited(s, n, i)
      {
        assert s[p..p + |n|][i - 1 - p] == s[i - 1] && n[i - 1 - p] in n;
      }
      pos := p + |n|;
    }
  }
}
