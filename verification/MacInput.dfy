/** What the MAC is computed over: parts one after the other, each after four bytes that
    say how long it is. */
module MacInput {
  import opened Options
  import opened Base32

  datatype Purpose = Keycheck | Totp | MailAddress {
    function Label(): string {
      match this
      case Keycheck => "kohaku/keycheck"
      case Totp => "kohaku/totp"
      case MailAddress => "kohaku/mail-address"
    }
  }

  const LIMIT: nat := 0x1_0000_0000

  function Ascii(text: string): seq<Byte>
    requires forall i :: 0 <= i < |text| ==> text[i] < 128 as char
  {
    seq(|text|, i requires 0 <= i < |text| => text[i] as int as Byte)
  }

  function LabelBytes(purpose: Purpose): seq<Byte> {
    Ascii(purpose.Label())
  }

  /** A length below 2^32, most significant byte first. */
  function BigEndian(n: nat): seq<Byte>
    requires n < LIMIT
  {
    [(n / 0x100_0000) as Byte, (n / 0x1_0000 % 0x100) as Byte, (n / 0x100 % 0x100) as Byte, (n % 0x100) as Byte]
  }

  predicate Encodable(parts: seq<seq<Byte>>) {
    forall i :: 0 <= i < |parts| ==> |parts[i]| < LIMIT
  }

  /** The bytes a list of parts feeds to the MAC. */
  function Framed(parts: seq<seq<Byte>>): seq<Byte>
    requires Encodable(parts)
  {
    if parts == [] then [] else BigEndian(|parts[0]|) + parts[0] + Framed(parts[1..])
  }

  /** Feeds the purpose's label and then the fields; `None` where a field of 4 GiB or more
      panics. */
  method MacInputOf(purpose: Purpose, fields: seq<seq<Byte>>) returns (input: Option<seq<Byte>>)
    ensures input.Some? <==> Encodable(fields)
    ensures input.Some? ==> input.value == Framed([LabelBytes(purpose)] + fields)
  {
    var parts := [LabelBytes(purpose)] + fields;
    LabelIsShort(purpose);
    var fed: seq<Byte> := [];
    for i := 0 to |parts|
      invariant Encodable(parts[..i])
      invariant fed == Framed(parts[..i])
    {
      if |parts[i]| >= LIMIT {
        assert parts[i] == fields[i - 1];
        return None;
      }
      FramedAppend(parts[..i], parts[i]);
      assert parts[..i + 1] == parts[..i] + [parts[i]];
      fed := fed + BigEndian(|parts[i]|);
      fed := fed + parts[i];
    }
    assert parts[..|parts|] == parts;
    assert forall i :: 0 <= i < |fields| ==> fields[i] == parts[i + 1];
    return Some(fed);
  }

  lemma LabelIsShort(purpose: Purpose)
    ensures |LabelBytes(purpose)| < LIMIT
  {
  }

  lemma {:induction false} FramedAppend(parts: seq<seq<Byte>>, part: seq<Byte>)
    requires Encodable(parts) && |part| < LIMIT
    ensures Encodable(parts + [part])
    ensures Framed(parts + [part]) == Framed(parts) + BigEndian(|part|) + part
  {
    if parts == [] {
      assert Framed([part][1..]) == [];
    } else {
      assert (parts + [part])[1..] == parts[1..] + [part];
      FramedAppend(parts[1..], part);
    }
  }

  lemma BigEndianInjective(m: nat, n: nat)
    requires m < LIMIT && n < LIMIT && BigEndian(m) == BigEndian(n)
    ensures m == n
  {
    var a, b := BigEndian(m), BigEndian(n);
    assert a[0] == b[0] && a[1] == b[1] && a[2] == b[2] && a[3] == b[3];
    BigEndianValue(m);
    BigEndianValue(n);
  }

  lemma BigEndianValue(n: nat)
    requires n < LIMIT
    ensures var b := BigEndian(n);
            n == b[0] as int * 0x100_0000 + b[1] as int * 0x1_0000 + b[2] as int * 0x100 + b[3] as int
  {
    assert n / 0x1_0000 == n / 0x100 / 0x100 && n / 0x100_0000 == n / 0x1_0000 / 0x100;
  }

  /** No two part lists have the same bytes. */
  lemma {:induction false} FramedInjective(a: seq<seq<Byte>>, b: seq<seq<Byte>>)
    requires Encodable(a) && Encodable(b) && Framed(a) == Framed(b)
    ensures a == b
  {
    if a != [] && b != [] {
      var f := Framed(a);
      assert f[..4] == BigEndian(|a[0]|) && f[..4] == BigEndian(|b[0]|);
      BigEndianInjective(|a[0]|, |b[0]|);
      var n := 4 + |a[0]|;
      assert f[4..n] == a[0] && f[4..n] == b[0];
      assert f[n..] == Framed(a[1..]) && f[n..] == Framed(b[1..]);
      FramedInjective(a[1..], b[1..]);
      assert a == [a[0]] + a[1..] && b == [b[0]] + b[1..];
    }
  }

  lemma LabelsDiffer(p: Purpose, q: Purpose)
    requires LabelBytes(p) == LabelBytes(q)
    ensures p == q
  {
  }

  /** Two MAC inputs are the same bytes only for the same purpose and the same fields. */
  lemma MacInputInjective(p: Purpose, fields: seq<seq<Byte>>, q: Purpose, others: seq<seq<Byte>>)
    requires Encodable(fields) && Encodable(others)
    requires Encodable([LabelBytes(p)] + fields) && Encodable([LabelBytes(q)] + others)
    requires Framed([LabelBytes(p)] + fields) == Framed([LabelBytes(q)] + others)
    ensures p == q && fields == others
  {
    var a, b := [LabelBytes(p)] + fields, [LabelBytes(q)] + others;
    FramedInjective(a, b);
    assert a[0] == b[0] && a[1..] == fields && b[1..] == others;
    LabelsDiffer(p, q);
  }
}
