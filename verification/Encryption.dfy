/** Envelopes: framing that names its parts unambiguously, and keys that rotate. */
module Encryption {
  import opened Wrappers

  type Byte = b: nat | b < 256

  type Bytes = seq<Byte>

  const KEY_SIZE := 32
  const FORMAT_VERSION: Byte := 1
  const HEADER_SIZE := 2

  // Framing (unsigned LEB128, section 7.6 of DWARF version 5).

  /** Seven bits a byte from the low end, every byte but the last marked. */
  function Uvarint(n: nat): (bytes: Bytes)
    ensures bytes != []
  {
    if n < 128 then [n] else [n % 128 + 128] + Uvarint(n / 128)
  }

  /** The number that leads the bytes, and how many bytes it takes. */
  function ReadUvarint(bytes: Bytes): Option<(nat, nat)> {
    if bytes == [] then None
    else if bytes[0] < 128 then Some((bytes[0], 1))
    else
      var rest := ReadUvarint(bytes[1..]);
      if rest.None? then None else Some((bytes[0] - 128 + 128 * rest.value.0, rest.value.1 + 1))
  }

  /** The lengths the standard spells out, and the rule for the rest: the low seven bits, then what is left. */
  lemma UvarintSpelled(n: nat)
    ensures Uvarint(2) == [2] && Uvarint(127) == [127] && Uvarint(128) == [0x80, 1]
    ensures Uvarint(129) == [0x81, 1] && Uvarint(12857) == [57 + 0x80, 100]
    ensures |Uvarint(n)| == 1 <==> n < 128
    ensures n >= 128 ==> Uvarint(n)[0] == n % 128 + 128 && Uvarint(n)[1..] == Uvarint(n / 128)
  {
    assert Uvarint(128 / 128) == [1] && Uvarint(129 / 128) == [1] && Uvarint(12857 / 128) == [100];
  }

  /** A length written is read back, whatever follows it. */
  lemma {:induction false} UvarintReadsBack(n: nat, tail: Bytes)
    ensures ReadUvarint(Uvarint(n) + tail) == Some((n, |Uvarint(n)|))
  {
    if n >= 128 {
      var bytes := Uvarint(n) + tail;
      assert bytes[1..] == Uvarint(n / 128) + tail;
      UvarintReadsBack(n / 128, tail);
    }
  }

  /** No length's bytes begin another's. */
  lemma UvarintPrefixFree(n: nat, m: nat, tail: Bytes, tail': Bytes)
    requires Uvarint(n) + tail == Uvarint(m) + tail'
    ensures n == m && tail == tail'
  {
    UvarintReadsBack(n, tail);
    UvarintReadsBack(m, tail');
    assert tail == (Uvarint(n) + tail)[|Uvarint(n)|..];
    assert tail' == (Uvarint(m) + tail')[|Uvarint(m)|..];
  }

  /** Every part led by its length. */
  function Framed(parts: seq<Bytes>): Bytes {
    if parts == [] then [] else Uvarint(|parts[0]|) + parts[0] + Framed(parts[1..])
  }

  function Associated(header: Bytes, parts: seq<Bytes>): Bytes { header + Framed(parts) }

  lemma {:induction false} FramedInjective(parts: seq<Bytes>, parts': seq<Bytes>)
    requires Framed(parts) == Framed(parts')
    ensures parts == parts'
  {
    if parts != [] && parts' != [] {
      var part, part' := parts[0], parts'[0];
      var tail, tail' := part + Framed(parts[1..]), part' + Framed(parts'[1..]);
      assert Framed(parts) == Uvarint(|part|) + tail && Framed(parts') == Uvarint(|part'|) + tail';
      UvarintPrefixFree(|part|, |part'|, tail, tail');
      assert part == tail[..|part|] && part' == tail'[..|part'|];
      assert Framed(parts[1..]) == tail[|part|..] && Framed(parts'[1..]) == tail'[|part'|..];
      FramedInjective(parts[1..], parts'[1..]);
    }
  }

  /** The header, and then each part behind its length, in order. */
  lemma {:induction false} FramedInOrder(parts: seq<Bytes>, more: seq<Bytes>, part: Bytes, header: Bytes)
    ensures Framed(parts + more) == Framed(parts) + Framed(more)
    ensures Framed([part]) == Uvarint(|part|) + part && Associated(header, []) == header
    ensures Associated(header, parts + more) == Associated(header, parts) + Framed(more)
  {
    assert Framed([part][1..]) == [];
    if parts == [] {
      assert parts + more == more;
    } else {
      FramedInOrder(parts[1..], more, part, header);
      assert (parts + more)[1..] == parts[1..] + more;
    }
  }

  /** Associated data name one header and one list of parts. */
  lemma AssociatedInjective(header: Bytes, parts: seq<Bytes>, header': Bytes, parts': seq<Bytes>)
    requires |header| == |header'| == HEADER_SIZE
    ensures Associated(header, parts) == Associated(header', parts') <==> header == header' && parts == parts'
  {
    if Associated(header, parts) == Associated(header', parts') {
      assert header == Associated(header, parts)[..HEADER_SIZE] && header' == Associated(header', parts')[..HEADER_SIZE];
      assert Framed(parts) == Associated(header, parts)[HEADER_SIZE..];
      assert Framed(parts') == Associated(header', parts')[HEADER_SIZE..];
      FramedInjective(parts, parts');
    }
  }

  method AssociatedData(header: Bytes, parts: seq<Bytes>) returns (joined: Bytes)
    ensures joined == Associated(header, parts)
  {
    joined := header;
    for i := 0 to |parts|
      invariant joined + Framed(parts[i..]) == header + Framed(parts)
    {
      assert parts[i..][1..] == parts[i + 1..];
      var was := joined;
      joined := joined + Uvarint(|parts[i]|);
      joined := joined + parts[i];
      assert joined + Framed(parts[i + 1..]) == was + (Uvarint(|parts[i]|) + parts[i] + Framed(parts[i + 1..]));
    }
    assert parts[|parts|..] == [] && joined + [] == joined;
  }

  // Keys.

  /**
   Authenticated encryption under raw keys, taken as given: the id a key's envelopes
   carry, sealing with a nonce of one's own, and opening.
   */
  datatype Cipher = Cipher(
    id: Bytes -> Byte, seal: (Bytes, nat, Bytes, Bytes) -> Bytes, open: (Bytes, Bytes, Bytes) -> Option<Bytes>)
  {
    /** What was sealed opens under its own key and associated data, and under no other. */
    ghost predicate Ideal() {
      forall key, nonce, plaintext, data, key', data' ::
        open(key', seal(key, nonce, plaintext, data), data') == if key' == key && data' == data then Some(plaintext) else None
    }
  }

  datatype Error = NoKey | PreviousWithoutCurrent | KeyLength(index: nat) | CannotDecrypt | UnknownKey

  datatype Result<T> = Ok(value: T) | Err(error: Error)

  /** A key ring of the current key and then the previous ones, or which of them has a wrong length. */
  method New(current: Bytes, previous: seq<Bytes>) returns (keys: Result<seq<Bytes>>)
    ensures current == [] && previous == [] ==> keys == Ok([])
    ensures current == [] && previous != [] ==> keys == Err(PreviousWithoutCurrent)
    ensures current != [] ==>
      var raw := [current] + previous;
      && (keys.Ok? <==> forall i :: 0 <= i < |raw| ==> |raw[i]| == KEY_SIZE)
      && (keys.Ok? ==> keys.value == raw)
      && (keys.Err? ==> keys.error.KeyLength? && keys.error.index < |raw| && |raw[keys.error.index]| != KEY_SIZE
                        && forall i :: 0 <= i < keys.error.index ==> |raw[i]| == KEY_SIZE)
  {
    if |current| == 0 && |previous| > 0 {
      return Err(PreviousWithoutCurrent);
    }
    if |current| == 0 {
      return Ok([]);
    }
    var raw := [current] + previous;
    var set_: seq<Bytes> := [];
    for i := 0 to |raw|
      invariant set_ == raw[..i] && forall k :: 0 <= k < i ==> |raw[k]| == KEY_SIZE
    {
      if |raw[i]| != KEY_SIZE {
        return Err(KeyLength(i));
      }
      set_ := set_ + [raw[i]];
    }
    return Ok(set_);
  }

  function Header(cipher: Cipher, key: Bytes): Bytes { [FORMAT_VERSION, cipher.id(key)] }

  function Encrypt(cipher: Cipher, keys: seq<Bytes>, nonce: nat, plaintext: Bytes, parts: seq<Bytes>): Result<Bytes> {
    if keys == [] then Err(NoKey)
    else
      var header := Header(cipher, keys[0]);
      Ok(header + cipher.seal(keys[0], nonce, plaintext, Associated(header, parts)))
  }

  /** What the first key of the id that opens the bytes opens them to. */
  function Opened(cipher: Cipher, keys: seq<Bytes>, id: Byte, encrypted: Bytes, data: Bytes): Option<Bytes> {
    if keys == [] then None
    else if cipher.id(keys[0]) == id && cipher.open(keys[0], encrypted, data).Some? then cipher.open(keys[0], encrypted, data)
    else Opened(cipher, keys[1..], id, encrypted, data)
  }

  function Decrypt(cipher: Cipher, keys: seq<Bytes>, envelope: Bytes, parts: seq<Bytes>): Result<Bytes> {
    if keys == [] then Err(NoKey)
    else if |envelope| < HEADER_SIZE || envelope[0] != FORMAT_VERSION then Err(CannotDecrypt)
    else
      var found := Opened(
        cipher, keys, envelope[1], envelope[HEADER_SIZE..], Associated(envelope[..HEADER_SIZE], parts));
      if found.Some? then Ok(found.value)
      else if forall i :: 0 <= i < |keys| ==> cipher.id(keys[i]) != envelope[1] then Err(UnknownKey)
      else Err(CannotDecrypt)
  }

  /** Tries every key of the envelope's id in order. */
  method Open(cipher: Cipher, keys: seq<Bytes>, id: Byte, encrypted: Bytes, data: Bytes) returns (found: Result<Bytes>)
    ensures Opened(cipher, keys, id, encrypted, data).Some? ==> found == Ok(Opened(cipher, keys, id, encrypted, data).value)
    ensures Opened(cipher, keys, id, encrypted, data).None? ==>
      found == Err(if forall i :: 0 <= i < |keys| ==> cipher.id(keys[i]) != id then UnknownKey else CannotDecrypt)
  {
    var matched := false;
    for i := 0 to |keys|
      invariant Opened(cipher, keys, id, encrypted, data) == Opened(cipher, keys[i..], id, encrypted, data)
      invariant matched <==> exists k :: 0 <= k < i && cipher.id(keys[k]) == id
    {
      assert keys[i..][1..] == keys[i + 1..];
      if cipher.id(keys[i]) != id {
        continue;
      }
      matched := true;
      var plaintext := cipher.open(keys[i], encrypted, data);
      if plaintext.Some? {
        return Ok(plaintext.value);
      }
    }
    if !matched {
      return Err(UnknownKey);
    }
    return Err(CannotDecrypt);
  }

  lemma {:induction false} OpenedExactly(
    cipher: Cipher, keys: seq<Bytes>, key: Bytes, nonce: nat, plaintext: Bytes, sealedWith: Bytes, data: Bytes)
    requires cipher.Ideal()
    ensures Opened(cipher, keys, cipher.id(key), cipher.seal(key, nonce, plaintext, sealedWith), data)
      == if key in keys && data == sealedWith then Some(plaintext) else None
  {
    if keys != [] {
      OpenedExactly(cipher, keys[1..], key, nonce, plaintext, sealedWith, data);
      assert keys == [keys[0]] + keys[1..];
    }
  }

  /**
   An envelope decrypts to what was encrypted exactly under keys that still hold the
   encrypting one and with the same parts, however many keys share its id byte.
   */
  lemma DecryptsExactly(
    cipher: Cipher, keys: seq<Bytes>, nonce: nat, plaintext: Bytes, parts: seq<Bytes>, later: seq<Bytes>, parts': seq<Bytes>)
    requires cipher.Ideal() && keys != [] && later != []
    ensures Encrypt(cipher, keys, nonce, plaintext, parts).Ok?
    ensures var decrypted := Decrypt(cipher, later, Encrypt(cipher, keys, nonce, plaintext, parts).value, parts');
      if keys[0] in later && parts' == parts then decrypted == Ok(plaintext)
      else decrypted.Err? && (decrypted.error == UnknownKey <==>
        forall i :: 0 <= i < |later| ==> cipher.id(later[i]) != cipher.id(keys[0]))
  {
    var key := keys[0];
    var header := Header(cipher, key);
    var sealed := cipher.seal(key, nonce, plaintext, Associated(header, parts));
    var envelope := header + sealed;
    assert envelope[..HEADER_SIZE] == header && envelope[HEADER_SIZE..] == sealed;
    AssociatedInjective(header, parts, header, parts');
    OpenedExactly(cipher, later, key, nonce, plaintext, Associated(header, parts), Associated(header, parts'));
  }
}
