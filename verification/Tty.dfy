// The TTY line buffer: a character stream in, one message per line out.

module Tty {

  const TTY_SIZE: nat := 256

  type Buffer = s: seq<char> | |s| == TTY_SIZE witness seq(TTY_SIZE, _ => '\0')

  // The buffer, the number of characters in it, and the messages handed to the
  // event callback so far.
  datatype Console = Console(data: Buffer, len: nat, messages: seq<string>)

  function Blank(): Buffer { seq(TTY_SIZE, _ => '\0') }

  // A message is passed as a C string. Without a terminator in the buffer the
  // reader runs off its end; the model then stops at the end.
  function CString(data: seq<char>): string {
    if data == [] || data[0] == '\0' then [] else [data[0]] + CString(data[1..])
  }

  // handle_tty_output for one character.
  function PutChar(t: Console, c: char): (r: Console)
    requires t.len < TTY_SIZE
    ensures r.len < TTY_SIZE
  {
    var data := t.data[t.len := c];
    if c == '\n' then Console(Blank(), 0, t.messages + [CString(data)])
    else if t.len + 1 >= TTY_SIZE then Console(data, 0, t.messages)
    else Console(data, t.len + 1, t.messages)
  }

  // Every message handed out while feeding s was terminated inside the buffer.
  predicate Terminated(t: Console, s: string)
    requires t.len < TTY_SIZE
    decreases |s|
  {
    s == [] || ((s[0] == '\n' ==> '\0' in t.data[t.len := '\n']) && Terminated(PutChar(t, s[0]), s[1..]))
  }

  function Feed(t: Console, s: string): (r: Console)
    requires t.len < TTY_SIZE
    ensures r.len < TTY_SIZE
    decreases |s|
  {
    if s == [] then t else Feed(PutChar(t, s[0]), s[1..])
  }

  lemma {:induction false} FeedAppend(t: Console, s: string, c: char)
    requires t.len < TTY_SIZE
    ensures Feed(t, s + [c]) == PutChar(Feed(t, s), c)
    decreases |s|
  {
    if s == [] {
      assert (s + [c])[1..] == [];
    } else {
      assert (s + [c])[1..] == s[1..] + [c];
      FeedAppend(PutChar(t, s[0]), s[1..], c);
    }
  }

  // Without a newline nothing is handed out, and the buffer is a ring: the length
  // counts modulo 256 and the last 256 characters are in it.
  lemma {:induction false} WrapsAround(t: Console, s: string)
    requires t.len < TTY_SIZE && '\n' !in s
    ensures var r := Feed(t, s);
            && r.messages == t.messages && r.len == (t.len + |s|) % 256
            && forall i :: 0 <= i < |s| && |s| - 256 <= i ==> r.data[(t.len + i) % 256] == s[i]
    decreases |s|
  {
    if s != [] {
      var before, c := s[..|s| - 1], s[|s| - 1];
      assert s == before + [c];
      WrapsAround(t, before);
      FeedAppend(t, before, c);
      var u := Feed(t, before);
      RingNext(t.len + |before|);
      forall i | 0 <= i < |s| && |s| - 256 <= i ensures Feed(t, s).data[(t.len + i) % 256] == s[i] {
        if i < |before| {
          assert before[i] == s[i];
          RingApart(t.len + i, t.len + |before|);
        }
      }
    }
  }

  lemma RingNext(x: nat)
    ensures (x + 1) % 256 == if x % 256 == 255 then 0 else x % 256 + 1
  {
  }

  lemma RingApart(x: nat, y: nat)
    requires x < y < x + 256
    ensures x % 256 != y % 256
  {
  }

  // ---- the specification: complete lines, and what is left

  // With n characters of the current line already seen, no line exceeds 255
  // characters counting its newline, and neither does the unfinished one.
  predicate LinesFit(s: string, n: nat)
    decreases |s|
  {
    s == [] || (n + 1 < TTY_SIZE && LinesFit(s[1..], if s[0] == '\n' then 0 else n + 1))
  }

  // The complete lines of s, each with its newline, when head precedes it.
  function Lines(head: string, s: string): seq<string>
    decreases |s|
  {
    if s == [] then []
    else if s[0] == '\n' then [head + ['\n']] + Lines([], s[1..])
    else Lines(head + [s[0]], s[1..])
  }

  // What follows the last newline.
  function Rest(head: string, s: string): string
    decreases |s|
  {
    if s == [] then head
    else if s[0] == '\n' then Rest([], s[1..])
    else Rest(head + [s[0]], s[1..])
  }

  function Concat(ss: seq<string>): string {
    if ss == [] then [] else ss[0] + Concat(ss[1..])
  }

  function Newlines(s: string): nat {
    if s == [] then 0 else (if s[0] == '\n' then 1 else 0) + Newlines(s[1..])
  }

  lemma {:induction false} LinesAreTheStream(head: string, s: string)
    ensures Concat(Lines(head, s)) + Rest(head, s) == head + s
    ensures |Lines(head, s)| == Newlines(s)
    decreases |s|
  {
    if s == [] {
      assert head + s == head;
    } else if s[0] == '\n' {
      LinesAreTheStream([], s[1..]);
      var first := head + ['\n'];
      assert Lines(head, s)[1..] == Lines([], s[1..]);
      assert first + s[1..] == head + s;
      assert [] + s[1..] == s[1..];
      assert first + Concat(Lines([], s[1..])) + Rest([], s[1..]) == first + (Concat(Lines([], s[1..])) + Rest([], s[1..]));
    } else {
      LinesAreTheStream(head + [s[0]], s[1..]);
      assert head + [s[0]] + s[1..] == head + s;
    }
  }

  // The lines fit exactly when each, with its newline, has at most 255 characters.
  lemma {:induction false} LinesFitLengths(head: string, s: string)
    requires |head| <= 255
    ensures LinesFit(s, |head|) <==> (forall l :: l in Lines(head, s) ==> |l| <= 255) && |Rest(head, s)| <= 255
    decreases |s|
  {
    if s != [] {
      if s[0] == '\n' {
        LinesFitLengths([], s[1..]);
        assert Lines(head, s) == [head + ['\n']] + Lines([], s[1..]);
      } else if |head| < 255 {
        LinesFitLengths(head + [s[0]], s[1..]);
      } else {
        TooLong(head + [s[0]], s[1..]);
      }
    }
  }

  lemma {:induction false} TooLong(head: string, s: string)
    requires |head| > 255
    ensures (exists l :: l in Lines(head, s) && |l| > 255) || |Rest(head, s)| > 255
    decreases |s|
  {
    if s != [] {
      if s[0] == '\n' {
        assert Lines(head, s)[0] == head + ['\n'];
      } else {
        TooLong(head + [s[0]], s[1..]);
      }
    }
  }

  // ---- the buffer holds the current line

  ghost predicate Holds(t: Console, head: string) {
    && t.len == |head| < TTY_SIZE
    && t.data[..t.len] == head
    && (forall i :: t.len <= i < TTY_SIZE ==> t.data[i] == '\0')
    && '\0' !in head
  }

  lemma {:induction false} CStringStops(data: seq<char>, k: nat)
    requires k <= |data| && '\0' !in data[..k]
    requires k == |data| || data[k] == '\0'
    ensures CString(data) == data[..k]
    decreases |data|
  {
    if k > 0 {
      assert data[0] == data[..k][0];
      assert data[1..][..k - 1] == data[..k][1..];
      CStringStops(data[1..], k - 1);
      assert data[..k] == [data[0]] + data[1..][..k - 1];
    }
  }

  lemma PutCharHolds(t: Console, head: string, c: char)
    requires Holds(t, head) && c != '\0' && t.len + 1 < TTY_SIZE
    ensures c != '\n' ==> Holds(PutChar(t, c), head + [c]) && PutChar(t, c).messages == t.messages
    ensures c == '\n' ==> Holds(PutChar(t, c), []) && PutChar(t, c).messages == t.messages + [head + [c]]
    ensures '\0' in t.data[t.len := c]
  {
    var data := t.data[t.len := c];
    assert data[..t.len + 1] == head + [c];
    assert data[t.len + 1] == '\0';
    CStringStops(data, t.len + 1);
  }

  lemma {:induction false} FeedHolds(t: Console, head: string, s: string)
    requires Holds(t, head) && '\0' !in s && LinesFit(s, |head|)
    ensures Holds(Feed(t, s), Rest(head, s))
    ensures Feed(t, s).messages == t.messages + Lines(head, s)
    ensures Terminated(t, s)
    decreases |s|
  {
    hide Holds, PutChar, CString;
    if s != [] {
      assert t.len == |head| by { HoldsLen(t, head); }
      PutCharHolds(t, head, s[0]);
      if s[0] == '\n' {
        FeedHolds(PutChar(t, s[0]), [], s[1..]);
        assert t.messages + [head + ['\n']] + Lines([], s[1..]) == t.messages + Lines(head, s);
      } else {
        FeedHolds(PutChar(t, s[0]), head + [s[0]], s[1..]);
      }
    }
  }

  lemma HoldsLen(t: Console, head: string)
    requires Holds(t, head)
    ensures t.len == |head|
  {
  }

  // ---- once a line does not fit

  // A buffer without a terminator: the next newline hands out an unterminated
  // message, and until then nothing is handed out.
  ghost predicate Full(t: Console) {
    t.len < TTY_SIZE && '\0' !in t.data
  }

  lemma {:induction false} FullStaysFull(t: Console, s: string)
    requires Full(t) && '\0' !in s
    ensures '\n' in s ==> !Terminated(t, s)
    ensures '\n' !in s ==> Feed(t, s).messages == t.messages
    decreases |s|
  {
    if s != [] && s[0] != '\n' {
      var u := PutChar(t, s[0]);
      assert Full(u) by {
        assert forall i :: 0 <= i < TTY_SIZE ==> u.data[i] == t.data[i] || u.data[i] == s[0];
      }
      FullStaysFull(u, s[1..]);
      assert '\n' in s <==> '\n' in s[1..];
    } else if s != [] {
      assert '\0' !in t.data[t.len := '\n'] by {
        assert forall i :: 0 <= i < TTY_SIZE ==> t.data[t.len := '\n'][i] == t.data[i] || i == t.len;
      }
    }
  }

  ghost predicate Conserved(t: Console, s: string)
    requires t.len < TTY_SIZE
  {
    var r := Feed(t, s);
    Concat(r.messages) + r.data[..r.len] == Concat(t.messages) + t.data[..t.len] + s
  }

  lemma {:induction false} ConcatAppend(a: seq<string>, b: seq<string>)
    ensures Concat(a + b) == Concat(a) + Concat(b)
  {
    if a == [] {
      assert a + b == b;
    } else {
      assert (a + b)[1..] == a[1..] + b;
      ConcatAppend(a[1..], b);
    }
  }

  // A full line with no newline in its last place: what follows cannot repair it.
  lemma OverflowBreaks(t: Console, head: string, s: string)
    requires Holds(t, head) && s != [] && '\0' !in s && |head| + 1 == TTY_SIZE
    ensures !(Terminated(t, s) && Conserved(t, s))
  {
    var data := t.data[t.len := s[0]];
    assert '\0' !in data by {
      forall i | 0 <= i < TTY_SIZE ensures data[i] != '\0' {
        if i < t.len { assert data[i] == t.data[..t.len][i]; }
      }
    }
    if s[0] != '\n' {
      FullStaysFull(PutChar(t, s[0]), s[1..]);
      if '\n' !in s[1..] {
        var r := Feed(t, s);
        assert r.messages == t.messages;
        TooShort(Concat(t.messages), t.data[..t.len], s, r.data[..r.len]);
      }
    }
  }

  lemma TooShort(a: string, b: string, s: string, c: string)
    requires |b| + |s| >= TTY_SIZE > |c|
    ensures a + c != a + b + s
  {
    assert |a + c| == |a| + |c| && |a + b + s| == |a| + |b| + |s|;
  }

  lemma {:induction false} UnfitBreaks(t: Console, head: string, s: string)
    requires Holds(t, head) && '\0' !in s && !LinesFit(s, |head|)
    ensures !(Terminated(t, s) && Conserved(t, s))
    decreases |s|
  {
    if |head| + 1 >= TTY_SIZE {
      OverflowBreaks(t, head, s);
    } else {
      hide PutChar, CString, Concat;
      PutCharHolds(t, head, s[0]);
      UnfitBreaks(PutChar(t, s[0]), if s[0] == '\n' then [] else head + [s[0]], s[1..]);
      PutCharConserves(t, head, s[0]);
      assert Concat(t.messages) + t.data[..t.len] + s == Concat(t.messages) + t.data[..t.len] + [s[0]] + s[1..];
    }
  }

  lemma PutCharConserves(t: Console, head: string, c: char)
    requires Holds(t, head) && c != '\0' && t.len + 1 < TTY_SIZE
    ensures var u := PutChar(t, c); Concat(u.messages) + u.data[..u.len] == Concat(t.messages) + t.data[..t.len] + [c]
  {
    PutCharHolds(t, head, c);
    var u := PutChar(t, c);
    if c == '\n' {
      ConcatAppend(t.messages, [head + [c]]);
      assert Concat([head + [c]]) == head + [c] + Concat([]);
      assert Concat(t.messages) + (head + [c]) == Concat(t.messages) + head + [c];
    } else {
      assert u.data[..u.len] == head + [c];
      assert Concat(t.messages) + (head + [c]) == Concat(t.messages) + head + [c];
    }
  }

  function EmptyConsole(): Console { Console(Blank(), 0, []) }

  // On a stream without NULs whose lines fit, the messages are exactly the
  // complete lines and the buffer holds the rest.
  lemma MessagesAreLines(s: string)
    requires '\0' !in s && LinesFit(s, 0)
    ensures var r := Feed(EmptyConsole(), s);
            && r.messages == Lines([], s) && |r.messages| == Newlines(s)
            && r.data[..r.len] == Rest([], s)
            && Concat(r.messages) + r.data[..r.len] == s
  {
    FeedHolds(EmptyConsole(), [], s);
    LinesAreTheStream([], s);
    assert [] + s == s;
    assert EmptyConsole().messages + Lines([], s) == Lines([], s);
  }

  // The fit is exactly what is needed: the stream is conserved and every message
  // is terminated inside the buffer if and only if the lines fit.
  lemma ConservedExactly(s: string)
    requires '\0' !in s
    ensures (Terminated(EmptyConsole(), s) && Conserved(EmptyConsole(), s)) <==> LinesFit(s, 0)
  {
    assert Holds(EmptyConsole(), []);
    assert Concat(EmptyConsole().messages) + EmptyConsole().data[..0] + s == s;
    if LinesFit(s, 0) {
      MessagesAreLines(s);
      FeedHolds(EmptyConsole(), [], s);
    } else {
      UnfitBreaks(EmptyConsole(), [], s);
    }
  }

  // ---- the buffer of the source

  class TtyBuffer {
    const data: array<char>
    var len: nat
    // What the event callback was given.
    var messages: seq<string>

    ghost predicate Valid()
      reads this
    {
      data.Length == TTY_SIZE && len < TTY_SIZE
    }

    ghost function Contents(): Console
      requires Valid()
      reads this, data
    {
      Console(data[..], len, messages)
    }

    constructor ()
      ensures Valid() && Contents() == EmptyConsole() && fresh(data)
    {
      data := new char[TTY_SIZE](_ => '\0');
      len := 0;
      messages := [];
      new;
      assert data[..] == Blank();
    }

    method HandleOutput(c: char)
      requires Valid()
      modifies this, data
      ensures Valid() && Contents() == PutChar(old(Contents()), c)
    {
      data[len] := c;
      len := len + 1;
      if c == '\n' {
        messages := messages + [CString(data[..])];
        forall i | 0 <= i < TTY_SIZE {
          data[i] := '\0';
        }
        len := 0;
        assert data[..] == Blank();
      } else {
        if len >= TTY_SIZE {
          len := 0;
        }
      }
    }
  }
}
