// The text of a traced BIOS call: the function's prototype with its argument
// written in.

module Prototype {
  const RESULT_SIZE: nat := 128

  const STD_OUT_PUTCHAR: string := "void std_out_putchar(char c=%c)"

  // A newline is written as an escape sequence, any other character as itself.
  function ArgChar(c: char): string {
    if c == '\n' then ['\'', '\\', 'n', '\''] else ['\'', c, '\'']
  }

  // The prototype with c for each %c; any other % stands for itself.
  function Expand(src: string, c: char): string
    decreases |src|
  {
    if src == [] then []
    else if src[0] == '%' && |src| > 1 && src[1] == 'c' then ArgChar(c) + Expand(src[2..], c)
    else [src[0]] + Expand(src[1..], c)
  }

  predicate HasSpecifier(src: string) {
    exists i :: 0 <= i < |src| - 1 && src[i] == '%' && src[i + 1] == 'c'
  }

  lemma {:induction false} ExpandLength(src: string, c: char)
    ensures |Expand(src, c)| <= 2 * |src|
    decreases |src|
  {
    if src == [] {
    } else if src[0] == '%' && |src| > 1 && src[1] == 'c' {
      ExpandLength(src[2..], c);
    } else {
      ExpandLength(src[1..], c);
    }
  }

  // The one traced function's text and its terminator fit the result buffer.
  lemma TraceFits(c: char)
    ensures |Expand(STD_OUT_PUTCHAR, c)| < RESULT_SIZE
  {
    ExpandLength(STD_OUT_PUTCHAR, c);
  }

  lemma {:induction false} ExpandPrefix(p: string, q: string, c: char)
    requires '%' !in p
    ensures Expand(p + q, c) == p + Expand(q, c)
    decreases |p|
  {
    if p == [] {
      assert p + q == q;
    } else {
      assert (p + q)[1..] == p[1..] + q;
      ExpandPrefix(p[1..], q, c);
      assert [p[0]] + (p[1..] + Expand(q, c)) == p + Expand(q, c);
    }
  }

  // What a call with a character is traced as.
  lemma TraceText(c: char)
    ensures c != '\n' ==> Expand(STD_OUT_PUTCHAR, c) == "void std_out_putchar(char c='" + [c] + "')"
    ensures c == '\n' ==> Expand(STD_OUT_PUTCHAR, c) == "void std_out_putchar(char c='\\n')"
  {
    hide Expand;
    var p, q := "void std_out_putchar(char c=", "%c)";
    assert STD_OUT_PUTCHAR == p + q;
    ExpandPrefix(p, q, c);
    ExpandArgument(c);
    if c == '\n' {
      assert p + (ArgChar(c) + ")") == "void std_out_putchar(char c='\\n')";
    } else {
      assert p + (ArgChar(c) + ")") == "void std_out_putchar(char c='" + [c] + "')";
    }
  }

  lemma ExpandArgument(c: char)
    ensures Expand("%c)", c) == ArgChar(c) + ")"
  {
    var q := "%c)";
    assert q[2..] == [')'];
    assert Expand([')'], c) == [')'] + Expand([], c) by { assert [')'][1..] == []; }
    hide ArgChar;
  }

  // The text tells the argument.
  lemma {:induction false} ArgumentReadBack(src: string, c: char, c': char)
    requires HasSpecifier(src) && Expand(src, c) == Expand(src, c')
    ensures c == c'
    decreases |src|
  {
    var s, t := Expand(src, c), Expand(src, c');
    if src[0] == '%' && src[1] == 'c' {
      assert s[..2] == ArgChar(c)[..2] && t[..2] == ArgChar(c')[..2];
      assert s[1] == t[1] && s[2] == t[2];
      assert s[2] == ArgChar(c)[2] && t[2] == ArgChar(c')[2];
    } else {
      var i :| 0 <= i < |src| - 1 && src[i] == '%' && src[i + 1] == 'c';
      assert src[1..][i - 1] == '%' && src[1..][i] == 'c';
      assert s[1..] == Expand(src[1..], c) && t[1..] == Expand(src[1..], c');
      ArgumentReadBack(src[1..], c, c');
    }
  }

  // The buffer with a C string written at its start.
  function Written(buffer: seq<char>, text: string): (r: seq<char>)
    requires |text| < |buffer|
    ensures |r| == |buffer|
  {
    text + ['\0'] + buffer[|text| + 1..]
  }

  // process_arg_char
  method ProcessArgChar(result: array<char>, dst: nat, c: char) returns (count: nat)
    requires dst + |ArgChar(c)| <= result.Length
    modifies result
    ensures count == |ArgChar(c)|
    ensures result[..] == old(result[..dst]) + ArgChar(c) + old(result[dst + |ArgChar(c)|..])
  {
    var text := ArgChar(c);
    forall i | 0 <= i < |text| {
      result[dst + i] := text[i];
    }
    count := |text|;
  }

  lemma ExpandFrom(src: string, i: nat, c: char)
    requires i < |src|
    ensures Expand(src[i..], c) ==
      if src[i] == '%' && i + 1 < |src| && src[i + 1] == 'c' then ArgChar(c) + Expand(src[i + 2..], c)
      else [src[i]] + Expand(src[i + 1..], c)
  {
    var rest := src[i..];
    assert rest[1..] == src[i + 1..];
    if |rest| > 1 { assert rest[2..] == src[i + 2..]; }
  }

  lemma ExpandNothing(c: char)
    ensures Expand([], c) == []
  {
  }

  // process_prototype
  method ProcessPrototype(prototype: string, result: array<char>, c: char)
    requires |Expand(prototype, c)| < result.Length
    modifies result
    ensures result[..] == Written(old(result[..]), Expand(prototype, c))
  {
    hide Expand, ArgChar;
    var src: nat, dst: nat := 0, 0;
    assert prototype[0..] == prototype;
    while src < |prototype|
      invariant src <= |prototype|
      invariant dst + |Expand(prototype[src..], c)| == |Expand(prototype, c)| < result.Length
      invariant result[..dst] + Expand(prototype[src..], c) == Expand(prototype, c)
      invariant result[dst..] == old(result[dst..])
    {
      ExpandFrom(prototype, src, c);
      ghost var before := result[..dst];
      if prototype[src] == '%' && src + 1 < |prototype| && prototype[src + 1] == 'c' {
        var count := ProcessArgChar(result, dst, c);
        assert result[..dst + count] == before + ArgChar(c);
        assert before + (ArgChar(c) + Expand(prototype[src + 2..], c)) == result[..dst + count] + Expand(prototype[src + 2..], c);
        dst := dst + count;
        src := src + 2;
      } else {
        result[dst] := prototype[src];
        assert result[..dst + 1] == before + [prototype[src]];
        assert before + ([prototype[src]] + Expand(prototype[src + 1..], c)) == result[..dst + 1] + Expand(prototype[src + 1..], c);
        dst := dst + 1;
        src := src + 1;
      }
    }
    assert Expand(prototype[src..], c) == [] by { assert prototype[src..] == []; ExpandNothing(c); }
    result[dst] := '\0';
  }
}
