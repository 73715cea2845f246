/**
 Values on the wire: a field of 128 bytes, filled by fill_wire_kv and read back
 with strnlen. Bytes are modelled as characters.
 */
module WireFormat {
  const MAX_VAL_SIZE: nat := 128
  const NUL: char := '\0'

  function Zeros(n: nat): (z: string)
    ensures |z| == n && forall i | 0 <= i < n :: z[i] == NUL
  {
    seq(n, _ => NUL)
  }

  /** The bytes of the field that carries v. */
  function Encode(v: string): (w: string)
    ensures |w| == MAX_VAL_SIZE
    ensures forall i | 0 <= i < MAX_VAL_SIZE :: w[i] == if i < |v| then v[i] else NUL
  {
    if |v| >= MAX_VAL_SIZE then v[..MAX_VAL_SIZE] else v + Zeros(MAX_VAL_SIZE - |v|)
  }

  /** strnlen: the number of bytes before the first NUL. */
  function StrnLen(w: string): (n: nat)
    ensures n <= |w|
    ensures forall i | 0 <= i < n :: w[i] != NUL
    ensures n < |w| ==> w[n] == NUL
  {
    if |w| == 0 || w[0] == NUL then 0 else 1 + StrnLen(w[1..])
  }

  function Decode(w: string): string {
    w[..StrnLen(w)]
  }

  /** What the receiver of v gets. */
  function Sent(v: string): string {
    Decode(Encode(v))
  }

  /** v fits in the field and does not contain the byte that ends it. */
  predicate Fits(v: string) {
    |v| <= MAX_VAL_SIZE && NUL !in v
  }

  /** The receiver gets the longest prefix that fits. */
  lemma SentIsLongestPrefix(v: string, p: nat)
    requires p <= |v|
    ensures Sent(v) <= v && Fits(Sent(v))
    ensures Fits(v[..p]) <==> p <= |Sent(v)|
  {
    var w := Encode(v);
    assert forall i | 0 <= i < |v| && i < MAX_VAL_SIZE :: w[i] == v[i];
    assert |v| < MAX_VAL_SIZE ==> w[|v|] == NUL;
    assert Sent(v) == v[..|Sent(v)|];
    if p <= |Sent(v)| {
      assert forall i | 0 <= i < p :: v[i] == w[i];
    } else if p <= MAX_VAL_SIZE {
      assert v[..p][|Sent(v)|] == NUL;
    }
  }

  /** A value survives the wire exactly when it fits. */
  lemma RoundTrip(v: string)
    ensures Sent(v) == v <==> Fits(v)
  {
    SentIsLongestPrefix(v, |v|);
    assert v[..|v|] == v;
  }

  /** A value that has been on the wire once survives it again. */
  lemma SentTwice(v: string)
    ensures Sent(Sent(v)) == Sent(v)
  {
    SentIsLongestPrefix(v, 0);
    RoundTrip(Sent(v));
  }

  /** The value part of fill_wire_kv: clear the field, then copy what fits. */
  method FillValue(field: array<char>, val: string)
    requires field.Length == MAX_VAL_SIZE
    modifies field
    ensures field[..] == Encode(val)
  {
    for i := 0 to MAX_VAL_SIZE
      invariant forall j | 0 <= j < i :: field[j] == NUL
    {
      field[i] := NUL;
    }
    var size := if |val| < MAX_VAL_SIZE then |val| else MAX_VAL_SIZE;
    for i := 0 to size
      invariant forall j | 0 <= j < i :: field[j] == val[j]
      invariant forall j | i <= j < MAX_VAL_SIZE :: field[j] == NUL
    {
      field[i] := val[i];
    }
  }

  /** std::string(field, strnlen(field, MAX_VAL_SIZE)). */
  method ReadValue(field: array<char>) returns (val: string)
    requires field.Length == MAX_VAL_SIZE
    ensures val == Decode(field[..])
  {
    var n := 0;
    while n < MAX_VAL_SIZE && field[n] != NUL
      invariant n <= MAX_VAL_SIZE
      invariant forall j | 0 <= j < n :: field[j] != NUL
    {
      n := n + 1;
    }
    assert field[..][..n] == field[..n];
    val := field[..n];
  }
}
