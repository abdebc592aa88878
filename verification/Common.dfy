/** Result types and small arithmetic shared by the modules of this project. */
module Common {

  datatype Option<+T> = None | Some(value: T)

  datatype Result<+T, +E> = Ok(value: T) | Err(error: E)

  function Max(a: nat, b: nat): nat {
    if a < b then b else a
  }

  function Min(a: nat, b: nat): nat {
    if a < b then a else b
  }

  type Byte = n: nat | n < 256

  /** An attempt to clean up, by the numbers of its calls. */
  datatype Attempt = Attempt(from: nat, to: nat)

  /** SHA-256 taken as injective. */
  datatype Digest = Sha256(preimage: seq<Byte>)

  /** A set has as many elements as a list of them without repetitions. */
  lemma {:induction false} DistinctCardinality(names: seq<string>, s: set<string>)
    requires forall i, j | 0 <= i < j < |names| :: names[i] != names[j]
    requires forall name :: name in s <==> name in names
    ensures |s| == |names|
  {
    if names == [] {
      assert s == {};
    } else {
      var last := names[|names| - 1];
      assert forall name :: name in names <==> name in names[..|names| - 1] || name == last;
      DistinctCardinality(names[..|names| - 1], s - {last});
    }
  }

  predicate IsAlphanumeric(c: char) {
    'a' <= c <= 'z' || 'A' <= c <= 'Z' || '0' <= c <= '9'
  }

  /** The characters of a run's name, the first of which is a letter or a digit. */
  predicate IsRunName(s: string) {
    && s != "" && IsAlphanumeric(s[0])
    && forall i | 0 <= i < |s| :: IsAlphanumeric(s[i]) || s[i] in {'-', '_'}
  }

  const HEX_DIGITS: string := "0123456789abcdef"

  function Decimal(n: nat): (s: string)
    ensures s != ""
  {
    if n < 10 then [HEX_DIGITS[n]] else Decimal(n / 10) + [HEX_DIGITS[n % 10]]
  }
}
