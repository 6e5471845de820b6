/** The reader's loops: a cursor that moves over a buffer, and the buffers it fills for callers. */
module JsonCursor {
  import opened Common
  import opened JsonText
  import opened JsonReader

  method SkipWs(data: string, from: nat, end: nat) returns (p: nat)
    requires from <= end <= |data|
    ensures p == from + Skipped(data[from..end])
    ensures p <= end
  {
    p := from;
    while p < end && (data[p] == ',' || Blank(data[p]))
      invariant from <= p <= end
      invariant p + Skipped(data[p..end]) == from + Skipped(data[from..end])
    {
      assert data[p..end][1..] == data[p + 1..end];
      p := p + 1;
    }
  }

  /** A trailing backslash steps over the end; the answer is the end all the same. */
  method SkipString(data: string, from: nat, end: nat) returns (p: nat)
    requires from < end <= |data| && data[from] == '"'
    ensures p == from + 1 + StringEnd(data[from + 1..end])
  {
    p := from + 1;
    while p < end
      invariant from < p <= end + 1
      invariant from + 1 + StringEnd(data[from + 1..end]) == if p > end then end else p + StringEnd(data[p..end])
      decreases end - p
    {
      ghost var rest := data[p..end];
      if data[p] == '\\' {
        assert |rest| > 1 ==> rest[2..] == data[p + 2..end];
        p := p + 2;
      } else if data[p] == '"' {
        return p + 1;
      } else {
        assert rest[1..] == data[p + 1..end];
        p := p + 1;
      }
    }
    return end;
  }

  /** One turn of the container scan, along the buffer. */
  lemma ContainerStep(data: string, p: nat, end: nat, open: char, depth: nat)
    requires p < end <= |data| && depth > 0
    ensures ContainerEnd(data[p..end], open, Close(open), depth)
         == if data[p] == '"' then
              var n := 1 + StringEnd(data[p + 1..end]);
              n + ContainerEnd(data[p + n..end], open, Close(open), depth)
            else
              1 + ContainerEnd(data[p + 1..end], open, Close(open), Deeper(data[p], open, depth))
  {
    hide StringEnd;
    Slice(data, p, end, 1, end - p);
    var n := 1 + StringEnd(data[p + 1..end]);
    if data[p] == '"' {
      Slice(data, p, end, n, end - p);
    }
  }

  function Deeper(c: char, open: char, depth: nat): nat
    requires depth > 0
  {
    if c == open then depth + 1 else if c == Close(open) then depth - 1 else depth
  }

  lemma ContainerStop(text: string, open: char, depth: nat)
    requires text == "" || depth == 0
    ensures ContainerEnd(text, open, Close(open), depth) == 0
  {
  }

  method SkipContainer(data: string, from: nat, end: nat) returns (p: nat)
    requires from < end <= |data| && Bracket(data[from])
    ensures p == from + 1 + ContainerEnd(data[from + 1..end], data[from], Close(data[from]), 1)
  {
    hide ContainerEnd, StringEnd;
    var open, close := data[from], Close(data[from]);
    var depth := 1;
    p := from + 1;
    while p < end && depth > 0
      invariant from < p <= end && depth >= 0
      invariant p + ContainerEnd(data[p..end], open, close, depth)
             == from + 1 + ContainerEnd(data[from + 1..end], open, close, 1)
      decreases end - p
    {
      ContainerStep(data, p, end, open, depth);
      if data[p] == '"' {
        p := SkipString(data, p, end);
      } else {
        if data[p] == open {
          depth := depth + 1;
        } else if data[p] == close {
          depth := depth - 1;
        }
        p := p + 1;
      }
    }
    ContainerStop(data[p..end], open, depth);
  }

  method SkipBare(data: string, from: nat, end: nat) returns (p: nat)
    requires from <= end <= |data|
    ensures p == from + BareEnd(data[from..end])
  {
    p := from;
    while p < end && !Delimiter(data[p])
      invariant from <= p <= end
      invariant p + BareEnd(data[p..end]) == from + BareEnd(data[from..end])
    {
      assert data[p..end][1..] == data[p + 1..end];
      p := p + 1;
    }
  }

  /** The length of the token that starts at `start`. */
  method TokenSpan(data: string, start: nat, end: nat) returns (len: nat)
    requires start <= end <= |data|
    ensures len == TokenLength(data[start..end])
  {
    if start >= end {
      return 0;
    }
    ghost var text := data[start..end];
    assert text[0] == data[start] && text[1..] == data[start + 1..end];
    hide StringEnd, ContainerEnd, BareEnd;
    var c := data[start];
    var p := start;
    if c == '"' {
      p := SkipString(data, start, end);
    } else if c == '{' || c == '[' {
      p := SkipContainer(data, start, end);
    } else if c != '}' && c != ']' {
      p := SkipBare(data, start, end);
    }
    return p - start;
  }

  class Cursor {
    const data: string
    var cur: nat
    var end: nat

    ghost predicate Valid()
      reads this
    {
      cur <= end <= |data|
    }

    function Left(): string
      reads this
      requires Valid()
    {
      data[cur..end]
    }

    constructor (data: string)
      ensures Valid() && this.data == data && Left() == data
    {
      this.data, cur, end := data, 0, |data|;
    }

    /** The next token and where it starts; length 0 at the end of the text or of a container. */
    method Next() returns (start: nat, len: nat)
      requires Valid()
      modifies this
      ensures Valid() && end == old(end)
      ensures (start - old(cur), len) == TokenAt(old(Left()))
      ensures old(cur) <= start && start + len <= end
      ensures cur == start + len
    {
      hide TokenLength, Skipped;
      ghost var left := Left();
      cur := SkipWs(data, cur, end);
      start := cur;
      assert left[Skipped(left)..] == data[start..end];
      len := TokenSpan(data, start, end);
      cur := start + len;
    }

    /** Narrows the cursor to the inside of a container token; nothing changes when it is not one. */
    method Enter(start: nat, len: nat) returns (ok: bool)
      requires start + len <= |data|
      modifies this
      ensures (ok, if ok then cur else 0, if ok then end else 0) == Entered(data, start, len)
      ensures if ok then Valid() else cur == old(cur) && end == old(end)
    {
      if len < 2 {
        return false;
      }
      var open := data[start];
      if !Bracket(open) {
        return false;
      }
      var last := start + len - 1;
      while last > start && Blank(data[last])
        invariant start <= last < start + len
        invariant LastSolid(data, start, last) == LastSolid(data, start, start + len - 1)
      {
        last := last - 1;
      }
      if data[last] != Close(open) {
        return false;
      }
      cur, end := start + 1, last;
      return true;
    }

    /** Puts a fresh cursor inside the object its buffer begins with. */
    method EnterObject() returns (ok: bool)
      requires cur == 0 && end == |data|
      modifies this
      ensures ok == Inside(data).0
      ensures ok ==> Valid() && (true, cur, end) == Inside(data)
    {
      hide Entered, TokenAt;
      assert data[cur..end] == data;
      var at, n := Next();
      if n == 0 || data[at] != '{' {
        return false;
      }
      ok := Enter(at, n);
    }

    /** The next key, cut to `room` characters, and its value's token. */
    method NextKey(room: nat) returns (key: string, start: nat, len: nat)
      requires Valid()
      modifies this
      ensures Valid() && end == old(end)
      ensures start + len <= end
      ensures var e := EntryAt(old(Left()), room);
              e.value == data[start..start + len] && cur == old(cur) + e.used
              && (len > 0 ==> key == e.key)
    {
      hide KeyOf, TokenAt, PastColon, EntryAt;
      ghost var from := cur;
      var at, n := Next();
      if n == 0 {
        NoKey(data[from..end], room);
        return "", cur, 0;
      }
      key := CopyKey(data, at, n, room);
      cur := SkipColon(data, cur, end);
      ghost var mid := cur;
      start, len := Next();
      EntryOfScans(data, from, end, room, at, n, mid, start, len);
    }
  }

  /** Three scans along the buffer make one key/value step. */
  lemma EntryOfScans(data: string, from: nat, end: nat, room: nat, at: nat, n: nat, mid: nat, start: nat, len: nat)
    requires from <= at && n > 0 && at + n <= mid <= start && start + len <= end <= |data|
    requires TokenAt(data[from..end]) == (at - from, n)
    requires mid == at + n + PastColon(data[at + n..end])
    requires TokenAt(data[mid..end]) == (start - mid, len)
    ensures EntryAt(data[from..end], room)
         == Entry(KeyOf(data[at..at + n], room), data[start..start + len], start + len - from)
  {
    hide KeyOf, TokenAt, PastColon, EntryAt;
    Slice(data, from, end, at - from, at - from + n);
    Slice(data, from, end, at - from + n, end - from);
    Slice(data, at + n, end, mid - at - n, end - at - n);
    Slice(data, mid, end, start - mid, start - mid + len);
    EntryParts(data[from..end], room, (at - from, n), mid - at - n, (start - mid, len));
  }

  lemma NoKey(text: string, room: nat)
    requires TokenAt(text).1 == 0
    ensures EntryAt(text, room) == Entry("", "", TokenAt(text).0)
  {
  }

  method CopyKey(data: string, at: nat, n: nat, room: nat) returns (key: string)
    requires at + n <= |data| && n > 0
    ensures key == KeyOf(data[at..at + n], room)
  {
    ghost var token := data[at..at + n];
    if data[at] == '"' && n >= 2 {
      var copied := n - 2;
      if copied > room {
        copied := room;
      }
      key := data[at + 1..at + 1 + copied];
      Slice(data, at, at + n, 1, n - 1);
      Slice(data, at + 1, at + n - 1, 0, copied);
    } else {
      key := data[at..at + Min(n, room)];
      Slice(data, at, at + n, 0, Min(n, room));
    }
  }

  method SkipColon(data: string, from: nat, end: nat) returns (p: nat)
    requires from <= end <= |data|
    ensures p == from + PastColon(data[from..end]) <= end
  {
    p := SkipWs(data, from, end);
    if p < end && data[p] == ':' {
      p := p + 1;
    }
  }

  method DecodeAt(data: string, src: nat, end: nat) returns (c: char, used: nat)
    requires src < end <= |data|
    ensures (c, used) == Decoded(data[src..end])
  {
    ghost var rest := data[src..end];
    c, used := data[src], 1;
    if data[src] == '\\' && src + 1 < end {
      assert rest[1] == data[src + 1];
      if Meaning(data[src + 1]) != "" {
        c, used := Meaning(data[src + 1])[0], 2;
      }
    }
  }

  /** Decodes the string token `data[start..start+len]` into `buf`, with a terminator. */
  method GetStr(data: string, start: nat, len: nat, buf: array<char>) returns (n: nat)
    requires start + len <= |data| && buf.Length > 0
    modifies buf
    ensures n < buf.Length && buf[n] == '\0'
    ensures buf[..n] == StringOf(data[start..start + len], buf.Length - 1)
  {
    hide Unescaped;
    ghost var token := data[start..start + len];
    if len < 2 || data[start] != '"' || data[start + len - 1] != '"' {
      buf[0] := '\0';
      return 0;
    }
    Slice(data, start, start + len, 1, len - 1);
    n := DecodeInto(data, start + 1, start + len - 1, buf);
  }

  method DecodeInto(data: string, from: nat, end: nat, buf: array<char>) returns (n: nat)
    requires from <= end <= |data| && buf.Length > 0
    modifies buf
    ensures n < buf.Length && buf[n] == '\0'
    ensures buf[..n] == Unescaped(data[from..end], buf.Length - 1)
  {
    hide Decoded, Meaning, Unescaped;
    ghost var whole := Unescaped(data[from..end], buf.Length - 1);
    var src := from;
    n := 0;
    while src < end && n < buf.Length - 1
      invariant from <= src <= end && n <= buf.Length - 1
      invariant buf[..n] + Unescaped(data[src..end], buf.Length - 1 - n) == whole
      decreases end - src
    {
      ghost var rest, was, room := data[src..end], buf[..n], buf.Length - 1 - n;
      DecodeStep(was, rest, room);
      var c, used := DecodeAt(data, src, end);
      Slice(data, src, end, used, end - src);
      buf[n] := c;
      src, n := src + used, n + 1;
      assert buf[..n] == was + [c];
    }
    NothingDecoded(data[src..end], buf.Length - 1 - n);
    buf[n] := '\0';
    assert buf[..n] == whole;
  }

  lemma NothingDecoded(text: string, room: nat)
    requires text == "" || room == 0
    ensures Unescaped(text, room) == ""
  {
  }

  lemma FindInside(data: string, key: string, room: nat)
    ensures var (ok, from, to) := Inside(data);
            FindString(data, key, room)
            == if ok then FirstNamed(Entries(data[from..to], KeyRoom), key, room) else Missing
  {
  }

  /** The string stored under `key` in an object, decoded into `buf`; -1 when there is none. */
  method ObjFindStr(data: string, key: string, buf: array<char>) returns (n: int)
    requires buf.Length > 0
    modifies buf
    ensures match FindString(data, key, buf.Length - 1)
            case Missing => n == -1
            case Found(s) => n == |s| < buf.Length && buf[..n] == s && buf[n] == '\0'
  {
    hide Entries, FirstNamed, EntryAt, StringOf, FindString, Inside, TokenAt, Entered;
    ghost var room := buf.Length - 1;
    FindInside(data, key, room);
    var j := new Cursor(data);
    var ok := j.EnterObject();
    if !ok {
      return -1;
    }
    while true
      invariant j.Valid() && fresh(j) && j.data == data
      invariant FindString(data, key, room) == FirstNamed(Entries(j.Left(), KeyRoom), key, room)
      decreases j.end - j.cur
    {
      ghost var left := j.Left();
      FirstNamedStep(left, key, room, KeyRoom);
      ghost var e := EntryAt(left, KeyRoom);
      var found, start, vlen := j.NextKey(KeyRoom);
      if vlen == 0 {
        return -1;
      }
      assert left[e.used..] == j.Left();
      if found == key {
        if vlen >= 2 && data[start] == '"' && data[start + vlen - 1] == '"' {
          n := GetStr(data, start, vlen, buf);
          return;
        }
        return -1;
      }
    }
  }
}
