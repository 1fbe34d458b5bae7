/**
 Headers as they are written, and that the parser's lookup finds exactly their values.
 */
module HttpHeaders {
  import opened Options
  import opened HttpMessage

  /** The same letter in either case, or the same byte. */
  predicate SameLetter(a: Byte, b: Byte) {
    || a == b
    || ('A' as int <= a <= 'Z' as int && b == a + 32)
    || ('A' as int <= b <= 'Z' as int && a == b + 32)
  }

  predicate SameName(name: seq<Byte>, key: seq<Byte>) {
    |name| == |key| && forall i :: 0 <= i < |key| ==> SameLetter(name[i], key[i])
  }

  /** The line begins with the key, in any case of its letters. */
  predicate BeginsWithKey(text: seq<Byte>, key: seq<Byte>) {
    |key| <= |text| && SameName(text[..|key|], key)
  }

  predicate IsSeparator(b: Byte) {
    b == ' ' as int || b == ':' as int
  }

  /** A header line: the key, separators or none, and a value that does not begin with one. */
  predicate IsHeader(text: seq<Byte>, key: seq<Byte>, seps: seq<Byte>, value: seq<Byte>) {
    && BeginsWithKey(text, key) && text[|key|..] == seps + value
    && (forall i :: 0 <= i < |seps| ==> IsSeparator(seps[i])) && (value == [] || !IsSeparator(value[0]))
  }

  lemma HasKeyExactly(text: seq<Byte>, key: seq<Byte>)
    ensures HasKey(text, key) <==> BeginsWithKey(text, key)
  {
    if BeginsWithKey(text, key) {
      forall i | 0 <= i < |key| ensures ToLower(text[i]) == ToLower(key[i]) { assert SameLetter(text[..|key|][i], key[i]); }
    }
  }

  lemma {:induction false} SeparatorsSkipped(seps: seq<Byte>, value: seq<Byte>)
    requires (forall i :: 0 <= i < |seps| ==> IsSeparator(seps[i])) && (value == [] || !IsSeparator(value[0]))
    ensures SkipSeparators(seps + value) == value
    decreases |seps|
  {
    if seps == [] {
      assert seps + value == value;
    } else {
      assert (seps + value)[1..] == seps[1..] + value && IsSeparator((seps + value)[0]);
      SeparatorsSkipped(seps[1..], value);
    }
  }

  /** The value found is that of the first line that begins with the key, all of it, if it is shorter than the buffer of
      256 bytes; and none if it is not, or if no line begins with the key. */
  lemma {:induction false} FirstHeaderFound(texts: seq<seq<Byte>>, key: seq<Byte>, k: nat, seps: seq<Byte>, value: seq<Byte>)
    requires k <= |texts| && forall i :: 0 <= i < k ==> !BeginsWithKey(texts[i], key)
    requires k < |texts| ==> IsHeader(texts[k], key, seps, value)
    ensures HeaderValue(texts, key) == if k < |texts| && |value| < 256 then Some(value) else None
    decreases k
  {
    if texts != [] {
      HasKeyExactly(texts[0], key);
      if k == 0 {
        SeparatorsSkipped(seps, value);
      } else {
        assert !BeginsWithKey(texts[0], key);
        assert forall i :: 0 <= i < |texts| - 1 ==> texts[1..][i] == texts[i + 1];
        FirstHeaderFound(texts[1..], key, k - 1, seps, value);
      }
    }
  }
}
