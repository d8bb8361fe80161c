/**
 NUL-terminated text in fixed buffers.  A byte is a character; text never contains
 the terminator.
 */
module CStrings {
  import opened Options

  const NUL: char := '\0'

  ghost predicate NulFree(s: string) { forall i :: 0 <= i < |s| ==> s[i] != NUL }

  /** The buffer holds exactly this text and its terminator. */
  predicate HoldsString(buffer: seq<char>, s: string) {
    |s| < |buffer| && buffer[..|s|] == s && buffer[|s|] == NUL
  }

  /** What a bounded print keeps of a text. */
  function Clip(s: string, capacity: nat): string
    requires capacity > 0
  {
    if |s| < capacity then s else s[..capacity - 1]
  }

  /** The longest beginning that leaves room for the terminator. */
  lemma ClipIsLongest(s: string, capacity: nat)
    requires capacity > 0
    ensures var t := Clip(s, capacity); t <= s && |t| < capacity && (t != s ==> |t| == capacity - 1)
  {
  }

  // ---------- Searching ----------

  predicate StartsWith(s: string, prefix: string) { |prefix| <= |s| && s[..|prefix|] == prefix }

  predicate At(s: string, needle: string, i: nat) { i + |needle| <= |s| && s[i..i + |needle|] == needle }

  /** Offset of the first occurrence (`strstr`). */
  function Find(s: string, needle: string): (at: Option<nat>)
    ensures at.Some? ==> At(s, needle, at.value)
    ensures at.Some? ==> forall i :: 0 <= i < at.value ==> !At(s, needle, i)
    ensures at == None ==> forall i: nat :: !At(s, needle, i)
  {
    if At(s, needle, 0) then Some(0)
    else if s == "" then None
    else
      AtTail(s, needle);
      match Find(s[1..], needle)
      case None => None
      case Some(k) => Some(k + 1)
  }

  lemma AtTail(s: string, needle: string)
    requires s != ""
    ensures forall i :: i >= 1 ==> (At(s, needle, i) <==> At(s[1..], needle, i - 1))
  {
    forall i | i >= 1
      ensures At(s, needle, i) <==> At(s[1..], needle, i - 1)
    {
      AtDrop([s[0]], s[1..], needle, i - 1);
      assert s == [s[0]] + s[1..];
    }
  }

  lemma AtDrop(head: string, rest: string, needle: string, i: nat)
    ensures At(head + rest, needle, |head| + i) <==> At(rest, needle, i)
  {
    if i + |needle| <= |rest| {
      assert (head + rest)[|head| + i..|head| + i + |needle|] == rest[i..i + |needle|];
    }
  }

  /** Any offset with an occurrence and none before it is the one found. */
  lemma FindUnique(s: string, needle: string, k: nat)
    requires At(s, needle, k) && forall i :: 0 <= i < k ==> !At(s, needle, i)
    ensures Find(s, needle) == Some(k)
  {
    hide At, Find;
    var at := Find(s, needle);
    assert at.Some? && !(at.value < k) && !(k < at.value);
  }

  /** Text with no occurrence starting in it only shifts the first occurrence. */
  lemma FindShift(head: string, rest: string, needle: string)
    requires Find(rest, needle).Some?
    requires forall i :: 0 <= i < |head| ==> !At(head + rest, needle, i)
    ensures Find(head + rest, needle).Some? && Find(head + rest, needle).value == |head| + Find(rest, needle).value
  {
    hide Find, At;
    var s, k := head + rest, Find(rest, needle).value;
    AtDrop(head, rest, needle, k);
    forall i | 0 <= i < |head| + k
      ensures !At(s, needle, i)
    {
      if i >= |head| {
        NotAtDrop(head, rest, needle, k, i - |head|);
      }
    }
    FindUnique(s, needle, |head| + k);
  }

  lemma NotAtDrop(head: string, rest: string, needle: string, k: nat, j: nat)
    requires Find(rest, needle) == Some(k) && j < k
    ensures !At(head + rest, needle, |head| + j)
  {
    hide Find, At;
    AtDrop(head, rest, needle, j);
  }

  /** An occurrence fixes every character it covers. */
  lemma AtChars(s: string, needle: string, i: nat, j: nat)
    requires At(s, needle, i) && j < |needle|
    ensures s[i + j] == needle[j]
  {
    assert s[i..i + |needle|][j] == needle[j];
  }

  // ---------- Appending ----------

  /** `length` tracks a text that was appended piece by piece: exactly while it fits, and as
      some value past the end afterwards; the buffer holds the part that fits. */
  predicate Appended(buffer: seq<char>, length: nat, text: string) {
    && |buffer| > 0
    && HoldsString(buffer, Clip(text, |buffer|))
    && (if |text| < |buffer| then length == |text| else length >= |buffer|)
  }

  lemma NothingAppended(buffer: seq<char>)
    requires |buffer| > 0 && buffer[0] == NUL
    ensures Appended(buffer, 0, "")
  {
  }

  /** `append_text`: once the length has passed the capacity nothing more is written. */
  method AppendText(buffer: array<char>, length: nat, text: string, ghost before: string) returns (length': nat)
    requires Appended(buffer[..], length, before)
    modifies buffer
    ensures Appended(buffer[..], length', before + text)
    ensures length >= buffer.Length ==> length' == length && buffer[..] == old(buffer[..])
    ensures length < buffer.Length ==> length' == length + |text|
  {
    if length >= buffer.Length {
      assert Clip(before + text, buffer.Length) == Clip(before, buffer.Length);
      return length;
    }
    var room := buffer.Length - length;
    var kept := Clip(text, room);
    forall i | 0 <= i < |kept| {
      buffer[length + i] := kept[i];
    }
    buffer[length + |kept|] := NUL;
    length' := length + |text|;
    AppendedGrows(old(buffer[..]), buffer[..], length, text, before);
  }

  lemma AppendedGrows(was: seq<char>, buffer: seq<char>, length: nat, text: string, before: string)
    requires Appended(was, length, before) && length < |was| == |buffer|
    requires buffer[..length] == was[..length]
    requires var kept := Clip(text, |buffer| - length);
             buffer[length..length + |kept|] == kept && buffer[length + |kept|] == NUL
    ensures Appended(buffer, length + |text|, before + text)
  {
    var kept := Clip(text, |buffer| - length);
    assert Clip(before + text, |buffer|) == before + kept;
    assert buffer[..length + |kept|] == buffer[..length] + buffer[length..length + |kept|];
  }
}
