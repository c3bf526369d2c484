/** The strings that name connections: keys of mqttClients and MQTT client ids. */
module Names {
  import opened Addresses

  const DIGITS := "0123456789"

  // fmt's %d
  function Decimal(n: nat): string {
    if n < 10 then [DIGITS[n]] else Decimal(n / 10) + [DIGITS[n % 10]]
  }

  // TCPAddress.String
  function AddressString(a: Address): string {
    a.host + ":" + Decimal(a.port)
  }

  // The key under which multipleClients stores the connection to the i-th address.
  function Key(a: Address, i: nat): string {
    AddressString(a) + "-" + Decimal(i)
  }

  // A client id with the suffix of multipleClients.
  function ClientId(base: string, i: nat, revision: nat): string {
    base + "-" + Decimal(i) + "-" + Decimal(revision)
  }

  // The key of the i-th connection of a pool, which is also its client id.
  function PoolId(base: string, i: nat): string {
    base + "-" + Decimal(i)
  }

  lemma {:induction false} OnlyDigits(n: nat)
    ensures forall c :: c in Decimal(n) ==> c in DIGITS
  {
    if n >= 10 {
      OnlyDigits(n / 10);
    }
  }

  function DigitValue(c: char): nat
    requires c in DIGITS
  {
    c as nat - '0' as nat
  }

  // The number that a string of digits denotes.
  function ValueOf(digits: string): nat
    requires forall c :: c in digits ==> c in DIGITS
  {
    if digits == "" then 0 else 10 * ValueOf(digits[..|digits| - 1]) + DigitValue(digits[|digits| - 1])
  }

  lemma DigitOf(d: nat)
    requires d < 10
    ensures DIGITS[d] in DIGITS && DigitValue(DIGITS[d]) == d
  {
  }

  /** What is printed denotes the number, and begins with a zero only if it is zero. */
  lemma {:induction false} DecimalDenotes(n: nat)
    ensures (forall c :: c in Decimal(n) ==> c in DIGITS) && ValueOf(Decimal(n)) == n
    ensures Decimal(n) != "" && (Decimal(n)[0] == '0' <==> n == 0)
  {
    OnlyDigits(n);
    DigitOf(n % 10);
    if n >= 10 {
      DecimalDenotes(n / 10);
      assert Decimal(n)[..|Decimal(n)| - 1] == Decimal(n / 10);
    } else {
      assert Decimal(n)[..0] == "";
    }
  }

  lemma DecimalIsInjective(m: nat, n: nat)
    requires Decimal(m) == Decimal(n)
    ensures m == n
  {
    DecimalDenotes(m);
    DecimalDenotes(n);
  }

  // What follows the last separator decides where that separator stands.
  lemma SplitAtLast(x: string, d: string, y: string, e: string, separator: char)
    requires x + [separator] + d == y + [separator] + e
    requires separator !in d && separator !in e
    ensures x == y && d == e
  {
    var s := x + [separator] + d;
    assert s[|x|] == separator && s[|y|] == separator;
    assert forall k :: |x| < k < |s| ==> s[k] == d[k - |x| - 1];
    assert forall k :: |y| < k < |s| ==> s[k] == e[k - |y| - 1];
    assert s[..|x|] == x && s[..|y|] == y;
    assert s[|x| + 1..] == d && s[|y| + 1..] == e;
  }

  lemma NumbersAfterSeparator(x: string, m: nat, y: string, n: nat, separator: char)
    requires x + [separator] + Decimal(m) == y + [separator] + Decimal(n)
    requires separator !in DIGITS
    ensures x == y && m == n
  {
    OnlyDigits(m);
    OnlyDigits(n);
    SplitAtLast(x, Decimal(m), y, Decimal(n), separator);
    DecimalIsInjective(m, n);
  }

  /** No two address-index pairs share a key, whatever dashes, colons or digits the hosts contain. */
  lemma KeyIsInjective(a: Address, i: nat, b: Address, j: nat)
    requires Key(a, i) == Key(b, j)
    ensures a == b && i == j
  {
    NumbersAfterSeparator(AddressString(a), i, AddressString(b), j, '-');
    NumbersAfterSeparator(a.host, a.port, b.host, b.port, ':');
  }

  /** The index and the revision can be read back from a client id, and so can the base. */
  lemma ClientIdIsInjective(base: string, i: nat, revision: nat, base': string, i': nat, revision': nat)
    requires ClientId(base, i, revision) == ClientId(base', i', revision')
    ensures base == base' && i == i' && revision == revision'
  {
    NumbersAfterSeparator(PoolId(base, i), revision, PoolId(base', i'), revision', '-');
    NumbersAfterSeparator(base, i, base', i', '-');
  }

  lemma PoolIdIsInjective(base: string, i: nat, j: nat)
    requires PoolId(base, i) == PoolId(base, j)
    ensures i == j
  {
    NumbersAfterSeparator(base, i, base, j, '-');
  }

  // ----- the names of a whole pool and of a whole generation

  function PoolIds(base: string, n: nat): (names: seq<string>)
    ensures |names| == n
  {
    if n == 0 then [] else PoolIds(base, n - 1) + [PoolId(base, n - 1)]
  }

  function Keys(addrs: seq<Address>): (keys: seq<string>)
    ensures |keys| == |addrs|
  {
    if addrs == [] then []
    else Keys(addrs[..|addrs| - 1]) + [Key(addrs[|addrs| - 1], |addrs| - 1)]
  }

  function ClientIds(base: string, n: nat, revision: nat): (names: seq<string>)
    ensures |names| == n
  {
    if n == 0 then [] else ClientIds(base, n - 1, revision) + [ClientId(base, n - 1, revision)]
  }

  ghost predicate Distinct(names: seq<string>) {
    forall i, j :: 0 <= i < j < |names| ==> names[i] != names[j]
  }

  lemma {:induction false} PoolIdsAt(base: string, n: nat, i: nat)
    requires i < n
    ensures PoolIds(base, n)[i] == PoolId(base, i)
  {
    if i < n - 1 {
      PoolIdsAt(base, n - 1, i);
    }
  }

  lemma {:induction false} KeysAt(addrs: seq<Address>, i: nat)
    requires i < |addrs|
    ensures Keys(addrs)[i] == Key(addrs[i], i)
  {
    if i < |addrs| - 1 {
      KeysAt(addrs[..|addrs| - 1], i);
    }
  }

  lemma {:induction false} ClientIdsAt(base: string, n: nat, revision: nat, i: nat)
    requires i < n
    ensures ClientIds(base, n, revision)[i] == ClientId(base, i, revision)
  {
    if i < n - 1 {
      ClientIdsAt(base, n - 1, revision, i);
    }
  }

  lemma PoolIdsAreDistinct(base: string, n: nat)
    ensures Distinct(PoolIds(base, n))
  {
    forall i, j | 0 <= i < j < n
      ensures PoolIds(base, n)[i] != PoolIds(base, n)[j]
    {
      PoolIdsAt(base, n, i);
      PoolIdsAt(base, n, j);
      if PoolId(base, i) == PoolId(base, j) {
        PoolIdIsInjective(base, i, j);
      }
    }
  }

  /** An address list never loses an entry to a collision of keys, however often an address is repeated. */
  lemma KeysAreDistinct(addrs: seq<Address>)
    ensures Distinct(Keys(addrs))
  {
    forall i, j | 0 <= i < j < |addrs|
      ensures Keys(addrs)[i] != Keys(addrs)[j]
    {
      KeysAt(addrs, i);
      KeysAt(addrs, j);
      if Key(addrs[i], i) == Key(addrs[j], j) {
        KeyIsInjective(addrs[i], i, addrs[j], j);
      }
    }
  }
}
