/**
 The bytes both sides of a server-to-server handshake sign. The encoding is
 injective for every pair of origins shorter than 65536 bytes, and the length
 fields wrap beyond that, where it is not.
 */
module Transcript {
  import opened Base
  import opened Names

  type Block = b: seq<byte> | |b| == 32 witness seq(32, i => 0)
  type Key = Block
  type Nonce = Block

  /** What a session agrees on, in fixed role order. */
  datatype Terms = Terms(
    dialerKey: Key, listenerKey: Key,
    dialerOrigin: string, listenerOrigin: string,
    dialerNonce: Nonce, listenerNonce: Nonce)

  predicate Octets(s: string) {
    forall c :: c in s ==> c as int < 256
  }

  function Bytes(s: string): (b: seq<byte>)
    requires Octets(s)
  {
    seq(|s|, i requires 0 <= i < |s| => assert s[i] in s; s[i] as int as byte)
  }

  const AUTH_CONTEXT: seq<byte> :=
    [114, 104, 112, 45, 102, 101, 100, 45, 115, 50, 115, 45, 97, 117, 116, 104, 45, 118, 50]

  /** `(len as u16).to_be_bytes()`. */
  function U16(n: nat): seq<byte> {
    [(n / 256 % 256) as byte, (n % 256) as byte]
  }

  function Sized(b: seq<byte>): seq<byte> {
    U16(|b|) + b
  }

  function AuthTranscript(dialerKey: Key, listenerKey: Key, dialerOrigin: seq<byte>, listenerOrigin: seq<byte>,
                          dialerNonce: Nonce, listenerNonce: Nonce): seq<byte>
  {
    AUTH_CONTEXT
    + (dialerKey + (listenerKey + (Sized(dialerOrigin) + (Sized(listenerOrigin) + (dialerNonce + listenerNonce)))))
  }

  predicate Encodable(t: Terms) {
    Octets(t.dialerOrigin) && Octets(t.listenerOrigin) && |t.dialerOrigin| < 0x1_0000 && |t.listenerOrigin| < 0x1_0000
  }

  function Signable(t: Terms): seq<byte>
    requires Encodable(t)
  {
    AuthTranscript(t.dialerKey, t.listenerKey, Bytes(t.dialerOrigin), Bytes(t.listenerOrigin), t.dialerNonce,
        t.listenerNonce)
  }

  lemma Peel<T>(a: seq<T>, rest: seq<T>, b: seq<T>, rest': seq<T>)
    requires a + rest == b + rest' && |a| == |b|
    ensures a == b && rest == rest'
  {
    assert a == (a + rest)[..|a|] && b == (b + rest')[..|b|];
    assert rest == (a + rest)[|a|..] && rest' == (b + rest')[|b|..];
  }

  /** A length prefix below 65536 makes the field self-delimiting. */
  lemma PeelSized(a: seq<byte>, rest: seq<byte>, b: seq<byte>, rest': seq<byte>)
    requires Sized(a) + rest == Sized(b) + rest' && |a| < 0x1_0000 && |b| < 0x1_0000
    ensures a == b && rest == rest'
  {
    assert Sized(a) + rest == U16(|a|) + (a + rest);
    assert Sized(b) + rest' == U16(|b|) + (b + rest');
    Peel(U16(|a|), a + rest, U16(|b|), b + rest');
    var hi, lo := U16(|a|)[0] as int, U16(|a|)[1] as int;
    assert |a| == 256 * hi + lo && |b| == 256 * hi + lo;
    Peel(a, rest, b, rest');
  }

  lemma TranscriptInjective(dk: Key, lk: Key, d: seq<byte>, l: seq<byte>, dn: Nonce, ln: Nonce,
                            dk': Key, lk': Key, d': seq<byte>, l': seq<byte>, dn': Nonce, ln': Nonce)
    requires |d| < 0x1_0000 && |l| < 0x1_0000 && |d'| < 0x1_0000 && |l'| < 0x1_0000
    requires AuthTranscript(dk, lk, d, l, dn, ln) == AuthTranscript(dk', lk', d', l', dn', ln')
    ensures dk == dk' && lk == lk' && d == d' && l == l' && dn == dn' && ln == ln'
  {
    var nonces, nonces' := dn + ln, dn' + ln';
    var tail, tail' := Sized(l) + nonces, Sized(l') + nonces';
    var mid, mid' := Sized(d) + tail, Sized(d') + tail';
    Peel(AUTH_CONTEXT, dk + (lk + mid), AUTH_CONTEXT, dk' + (lk' + mid'));
    Peel(dk, lk + mid, dk', lk' + mid');
    Peel(lk, mid, lk', mid');
    PeelSized(d, tail, d', tail');
    PeelSized(l, nonces, l', nonces');
    Peel(dn, ln, dn', ln');
  }

  lemma BytesInjective(a: string, b: string)
    requires Octets(a) && Octets(b) && Bytes(a) == Bytes(b)
    ensures a == b
  {
    assert |a| == |Bytes(a)| && |b| == |Bytes(b)|;
    forall i | 0 <= i < |a|
      ensures a[i] == b[i]
    {
      assert Bytes(a)[i] == Bytes(b)[i];
    }
  }

  /** A signature over a transcript says exactly which terms were meant. */
  lemma SignableInjective(t: Terms, u: Terms)
    requires Encodable(t) && Encodable(u) && Signable(t) == Signable(u)
    ensures t == u
  {
    TranscriptInjective(
      t.dialerKey, t.listenerKey, Bytes(t.dialerOrigin), Bytes(t.listenerOrigin), t.dialerNonce, t.listenerNonce,
      u.dialerKey, u.listenerKey, Bytes(u.dialerOrigin), Bytes(u.listenerOrigin), u.dialerNonce, u.listenerNonce);
    BytesInjective(t.dialerOrigin, u.dialerOrigin);
    BytesInjective(t.listenerOrigin, u.listenerOrigin);
  }

  /** The bound is sharp: from 65536 bytes on, the wrapped length lets two pairs of origins share a transcript. */
  lemma WrappedLengthCollides(dk: Key, lk: Key, l: seq<byte>, pad: seq<byte>, dn: Nonce, ln: Nonce)
    requires |pad| == 0x1_0000 - 2 && |l| < 0x1_0000
    ensures var d := U16(|l|) + pad;
      && |d| == 0x1_0000
      && AuthTranscript(dk, lk, d, l, dn, ln) == AuthTranscript(dk, lk, [], pad + Sized(l), dn, ln)
  {
    var d := U16(|l|) + pad;
    var nonces := dn + ln;
    assert U16(|d|) == U16(0);
    assert (0x1_0000 + |l|) / 256 % 256 == |l| / 256 % 256;
    assert U16(|pad + Sized(l)|) == U16(|l|);
    assert Sized(d) + (Sized(l) + nonces) == Sized([]) + (Sized(pad + Sized(l)) + nonces);
  }

  lemma {:induction false} NameOctets(name: string)
    requires NameChars(name)
    ensures Octets(name)
  {
    if name != "" {
      NameOctets(name[1..]);
      assert name == [name[0]] + name[1..];
    }
  }
}
