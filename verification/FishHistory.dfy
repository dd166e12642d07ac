/** fish's escaping of history values (internal/histfile/histfile.go, `unescapeFish`). */
module FishHistory {

  /** The stored form: \n for a newline, two backslashes for one. */
  function Escaped(s: string): string {
    if s == [] then []
    else (if s[0] == '\n' then "\\n" else if s[0] == '\\' then "\\\\" else [s[0]]) + Escaped(s[1..])
  }

  /** One pass: \n is a newline, two backslashes are one, anything else stays as written. */
  function Unescaped(s: string): string {
    if s == [] then []
    else if s[0] != '\\' || |s| == 1 then [s[0]] + Unescaped(s[1..])
    else Piece(s[1]) + Unescaped(s[2..])
  }

  lemma {:induction false} NothingEscaped(s: string)
    requires '\\' !in s
    ensures Unescaped(s) == s
  {
    if s != [] {
      NothingEscaped(s[1..]);
      assert s == [s[0]] + s[1..];
    }
  }

  lemma UnescapedStep(s: string, i: nat)
    requires i < |s|
    ensures Unescaped(s[i..]) ==
            if s[i] != '\\' || i + 1 >= |s| then [s[i]] + Unescaped(s[i+1..])
            else Piece(s[i+1]) + Unescaped(s[i+2..])
  {
    assert s[i..][1..] == s[i+1..];
    if i + 1 < |s| { assert s[i..][2..] == s[i+2..]; }
  }

  lemma Associate(a: string, b: string, c: string)
    ensures (a + b) + c == a + (b + c)
  {
  }

  /** What a backslash and the character after it stand for. */
  function Piece(c: char): string {
    if c == 'n' then "\n" else if c == '\\' then "\\" else ['\\', c]
  }

  lemma TwoMore(r: string, b: char, c: char)
    ensures (r + [b]) + [c] == r + [b, c]
  {
  }

  method UnescapeFish(s: string) returns (r: string)
    ensures r == Unescaped(s)
  {
    hide Unescaped;
    if '\\' !in s {
      NothingEscaped(s);
      return s;
    }
    r := "";
    var i := 0;
    assert s[0..] == s;
    while i < |s|
      invariant 0 <= i <= |s| && r + Unescaped(s[i..]) == Unescaped(s)
    {
      UnescapedStep(s, i);
      ghost var before := r;
      if s[i] != '\\' || i + 1 >= |s| {
        Associate(r, [s[i]], Unescaped(s[i+1..]));
        r := r + [s[i]];
        i := i + 1;
        continue;
      }
      i := i + 1;
      match s[i] {
        case 'n' => r := r + "\n";
        case '\\' => r := r + "\\";
        case _ =>
          TwoMore(r, '\\', s[i]);
          r := r + "\\";
          r := r + [s[i]];
      }
      i := i + 1;
      Associate(before, Piece(s[i-1]), Unescaped(s[i..]));
    }
    assert s[i..] == [];
    NothingEscaped([]);
  }

  predicate HasEscape(s: string) {
    exists i :: 0 <= i && i + 1 < |s| && s[i] == '\\' && (s[i+1] == 'n' || s[i+1] == '\\')
  }

  lemma {:induction false} NeverLonger(s: string)
    ensures |Unescaped(s)| <= |s|
  {
    if s == [] {
    } else if s[0] != '\\' || |s| == 1 {
      NeverLonger(s[1..]);
    } else {
      NeverLonger(s[2..]);
    }
  }

  /** A value comes out as it is written if and only if no backslash in it stands before an n or another
      backslash: unknown escapes are kept, the backslash included. */
  lemma {:induction false} KeptIff(s: string)
    ensures Unescaped(s) == s <==> !HasEscape(s)
    ensures HasEscape(s) ==> |Unescaped(s)| < |s|
  {
    if s == [] {
    } else if s[0] != '\\' || |s| == 1 {
      KeptIff(s[1..]);
      assert s == [s[0]] + s[1..];
      assert forall i :: 0 < i < |s| ==> s[i] == s[1..][i-1];
    } else if s[1] == 'n' || s[1] == '\\' {
      NeverLonger(s[2..]);
      assert s[0] == '\\';
    } else {
      KeptIff(s[2..]);
      assert s == [s[0], s[1]] + s[2..];
      assert forall i :: 1 < i < |s| ==> s[i] == s[2..][i-2];
    }
  }

  /** Decoding undoes fish's escaping on every string: \\n comes back as a backslash and an n, not as a
      newline. */
  lemma {:induction false} RoundTrip(s: string)
    ensures Unescaped(Escaped(s)) == s
  {
    if s != [] {
      RoundTrip(s[1..]);
      var t := Escaped(s[1..]);
      assert s == [s[0]] + s[1..];
      if s[0] == '\n' {
        assert ("\\n" + t)[2..] == t;
      } else if s[0] == '\\' {
        assert ("\\\\" + t)[2..] == t;
      } else {
        assert ([s[0]] + t)[1..] == t;
      }
    }
  }
}
