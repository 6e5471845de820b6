/** One client's input buffer: reads are appended, complete objects dispatched, the rest moved down. */
module FramingClient {
  import opened Common
  import opened Framing

  const MaxBuffer: nat := 0x10_0000

  method FindEndOfObject(data: string, from: nat, end: nat) returns (e: int)
    requires from <= end <= |data|
    ensures e == FindEnd(data[from..end], Outside)
  {
    var depth, inString, escapeToggle := 0, false, false;
    var p := from;
    while p < end
      invariant from <= p <= end
      invariant FindEnd(data[from..end], Outside)
             == Shift(p - from, FindEnd(data[p..end], Mode(depth, inString, escapeToggle)))
    {
      assert data[p..end][1..] == data[p + 1..end];
      if inString {
        if escapeToggle {
          escapeToggle := false;
        } else if data[p] == '\\' {
          escapeToggle := true;
        } else if data[p] == '"' {
          inString := false;
        }
      } else if data[p] == '"' {
        inString, escapeToggle := true, false;
      } else if data[p] == '{' {
        depth := depth + 1;
      } else if data[p] == '}' {
        depth := depth - 1;
        if depth == 0 {
          return p + 1 - from;
        }
      }
      p := p + 1;
    }
    return -1;
  }

  /** The C library's search for a brace; the text ends at its first NUL. */
  method FindBrace(data: string, from: nat, end: nat) returns (i: int)
    requires from <= end <= |data|
    ensures i == OpeningBrace(data[from..end])
  {
    var p := from;
    while p < end && data[p] != '\0' && data[p] != '{'
      invariant from <= p <= end
      invariant OpeningBrace(data[from..end]) == Shift(p - from, OpeningBrace(data[p..end]))
    {
      assert data[p..end][1..] == data[p + 1..end];
      p := p + 1;
    }
    return if p < end && data[p] == '{' then p - from else -1;
  }

  method ProcessJsonStream(data: string, len: nat) returns (objects: seq<string>, consumed: nat)
    requires len <= |data|
    ensures consumed <= len
    ensures Scan(data[..len]) == Scanned(objects, data[consumed..len])
  {
    hide Scan, FindEnd, OpeningBrace;
    var p := 0;
    objects := [];
    assert data[0..len] == data[..len];
    while p < len
      invariant p <= len
      invariant Scan(data[..len])
             == Scanned(objects + Scan(data[p..len]).objects, Scan(data[p..len]).rest)
    {
      ghost var left := data[p..len];
      var i := FindBrace(data, p, len);
      if i < 0 {
        ScanNothing(left);
        return objects, p;
      }
      Slice(data, p, len, i, i);
      var e := FindEndOfObject(data, p + i, len);
      if e < 0 {
        ScanUnfinished(left, i);
        return objects, p + i;
      }
      Slice(data, p, len, i, i + e);
      ScanStep(left, i, e);
      objects := objects + [data[p + i..p + i + e]];
      p := p + i + e;
    }
    ScanEmpty();
    assert data[p..len] == "";
    consumed := p;
  }

  lemma ScanEmpty()
    ensures Scan("") == Scanned([], "")
  {
  }

  datatype Outcome = Closed | Overflow | Handled(objects: seq<string>)

  class Client {
    var buffer: array<char>
    var len: nat

    ghost predicate Valid()
      reads this
    {
      len < buffer.Length <= MaxBuffer
    }

    ghost function Pending(): string
      reads this, buffer
      requires Valid()
    {
      buffer[..len]
    }

    constructor ()
      ensures Valid() && fresh(buffer) && Pending() == ""
    {
      buffer, len := new char[4096], 0;
    }

    /** Doubles the buffer, or takes what is needed, but never beyond the cap. */
    method Grow(n: nat) returns (ok: bool)
      requires Valid() && len + n >= buffer.Length
      modifies this
      ensures Valid() && len == old(len)
      ensures ok ==> fresh(buffer) && Pending() == old(Pending()) && len + n < buffer.Length
      ensures !ok ==> buffer == old(buffer)
      ensures ok <==> len + n < MaxBuffer
    {
      var capacity := if buffer.Length > 0 then buffer.Length * 2 else 4096;
      if capacity < len + n + 1 {
        capacity := len + n + 1;
      }
      if capacity > MaxBuffer {
        capacity := MaxBuffer;
      }
      if len + n + 1 > capacity {
        return false;
      }
      var bigger := new char[capacity];
      var i := 0;
      while i < len
        invariant 0 <= i <= len
        invariant buffer == old(buffer) && len == old(len)
        invariant bigger[..i] == buffer[..i]
      {
        bigger[i] := buffer[i];
        i := i + 1;
      }
      buffer := bigger;
      return true;
    }

    method Append(data: string)
      requires Valid() && len + |data| < buffer.Length
      modifies this`len, buffer
      ensures Valid() && buffer == old(buffer)
      ensures Pending() == old(Pending()) + data
    {
      var i := 0;
      while i < |data|
        invariant 0 <= i <= |data|
        invariant buffer == old(buffer) && len == old(len)
        invariant buffer[..len] == old(buffer[..len])
        invariant buffer[len..len + i] == data[..i]
      {
        buffer[len + i] := data[i];
        i := i + 1;
      }
      ghost var start := len;
      len := len + |data|;
      buffer[len] := '\0';
      assert buffer[..len] == buffer[..start] + buffer[start..len];
      assert data[..i] == data;
    }

    /** Moves the unconsumed bytes to the front. */
    method DropFront(consumed: nat)
      requires Valid() && consumed <= len
      modifies this`len, buffer
      ensures Valid() && buffer == old(buffer)
      ensures Pending() == old(Pending())[consumed..]
    {
      var remaining := len - consumed;
      var i := 0;
      while i < remaining
        invariant 0 <= i <= remaining
        invariant buffer == old(buffer) && len == old(len)
        invariant forall k :: 0 <= k < i ==> buffer[k] == old(buffer[consumed + k])
        invariant forall k :: consumed + i <= k < len ==> buffer[k] == old(buffer[k])
      {
        buffer[i] := buffer[consumed + i];
        i := i + 1;
      }
      len := remaining;
    }

    /** One readable event. A read that would pass the cap empties the buffer instead. */
    method HandleData(data: string) returns (outcome: Outcome)
      requires Valid()
      modifies this, buffer
      ensures Valid() && (buffer == old(buffer) || fresh(buffer))
      ensures data == "" ==> outcome == Closed && Pending() == old(Pending())
      ensures data != "" && |old(Pending())| + |data| >= MaxBuffer ==> outcome == Overflow && Pending() == ""
      ensures data != "" && |old(Pending())| + |data| < MaxBuffer ==>
                outcome.Handled? && Scan(old(Pending()) + data) == Scanned(outcome.objects, Pending())
    {
      hide Scan;
      if data == "" {
        return Closed;
      }
      ghost var pending := Pending();
      if len + |data| >= buffer.Length {
        var ok := Grow(|data|);
        if !ok {
          len := 0;
          return Overflow;
        }
      }
      Append(data);
      var objects, consumed := ProcessJsonStream(buffer[..len], len);
      assert buffer[..len][..len] == pending + data;
      assert buffer[..len][consumed..len] == buffer[..len][consumed..];
      if consumed > 0 {
        DropFront(consumed);
      }
      outcome := Handled(objects);
    }
  }

  predicate UnderCap(cuts: seq<string>, k: nat)
    requires k < |cuts|
  {
    cuts[k] != "" && |Scan(Joined(cuts[..k])).rest| + |cuts[k]| < MaxBuffer
  }

  /** A client's whole life: whatever the cuts, what is dispatched is one scan of all the bytes. */
  method Receive(cuts: seq<string>) returns (objects: seq<string>, pending: string)
    requires forall k :: 0 <= k < |cuts| ==> UnderCap(cuts, k)
    ensures Scan(Joined(cuts)) == Scanned(objects, pending)
  {
    hide Scan, Joined;
    var client := new Client();
    objects := [];
    JoinedNothing(cuts);
    var i := 0;
    while i < |cuts|
      invariant 0 <= i <= |cuts|
      invariant client.Valid() && fresh(client) && fresh(client.buffer)
      invariant Scan(Joined(cuts[..i])) == Scanned(objects, client.Pending())
    {
      assert UnderCap(cuts, i);
      JoinedStep(cuts, i);
      ScanContinues(Joined(cuts[..i]), cuts[i]);
      var outcome := client.HandleData(cuts[i]);
      objects := objects + outcome.objects;
      i := i + 1;
    }
    assert cuts[..i] == cuts;
    pending := client.buffer[..client.len];
  }

  lemma JoinedNothing(cuts: seq<string>)
    ensures Scan(Joined(cuts[..0])) == Scanned([], "")
  {
    ScanEmpty();
  }

  lemma JoinedStep(cuts: seq<string>, i: nat)
    requires i < |cuts|
    ensures Joined(cuts[..i + 1]) == Joined(cuts[..i]) + cuts[i]
  {
    assert cuts[..i + 1][..i] == cuts[..i];
  }
}
