/**
 Note identifiers (`genanki/util.py`): the field values are joined with
 `"__"`, hashed with SHA-256, the first eight digest bytes are read as a
 big-endian integer, and that integer is written in Anki's base-91 alphabet,
 most significant digit first.

 SHA-256 (together with the UTF-8 encoding that precedes it) is not modelled:
 it is a parameter `sha256` of the functions that need it.
 */
module Util {
  import opened Sequences
  import opened Strings

  newtype uint8 = x: int | 0 <= x < 256

  /** A SHA-256 digest: 32 bytes. */
  type Digest = d: seq<uint8> | |d| == 32 witness Zeros32
  const Zeros32: seq<uint8> := seq(32, i => 0)

  // BASE91_TABLE, kept as its four runs: a-z, A-Z, 0-9 and 29 punctuation
  // marks in ascending code-point order.
  const LowerCase: seq<char> := ['a', 'b', 'c', 'd', 'e', 'f', 'g', 'h', 'i', 'j', 'k', 'l', 'm', 'n', 'o', 'p', 'q', 'r', 's', 't', 'u', 'v', 'w', 'x', 'y', 'z']
  const UpperCase: seq<char> := ['A', 'B', 'C', 'D', 'E', 'F', 'G', 'H', 'I', 'J', 'K', 'L', 'M', 'N', 'O', 'P', 'Q', 'R', 'S', 'T', 'U', 'V', 'W', 'X', 'Y', 'Z']
  const DecimalDigits: seq<char> := ['0', '1', '2', '3', '4', '5', '6', '7', '8', '9']
  const Punctuation: seq<char> :=
    [ '!', '#', '$', '%', '&', '(', ')', '*', '+', ',', '-', '.', '/', ':',
      ';', '<', '=', '>', '?', '@', '[', ']', '^', '_', '`', '{', '|', '}', '~' ]

  const Base91Table: seq<char> := LowerCase + UpperCase + DecimalDigits + Punctuation

  /** The separator `guid_for` puts between the values it hashes. */
  const GuidSeparator: string := "__"

  lemma TableSize()
    ensures |Base91Table| == 91
  {
  }

  lemma PunctuationAscending()
    ensures forall i, j | 0 <= i < j < |Punctuation| :: Punctuation[i] < Punctuation[j]
  {
  }

  lemma PunctuationNotAlphanumeric(k: int)
    requires 0 <= k < |Punctuation|
    ensures !('a' <= Punctuation[k] <= 'z') && !('A' <= Punctuation[k] <= 'Z') && !('0' <= Punctuation[k] <= '9')
  {
  }

  lemma LowerCaseRun(d: int)
    requires 0 <= d < 26
    ensures LowerCase[d] as int == 'a' as int + d
  {
  }

  lemma UpperCaseRun(d: int)
    requires 0 <= d < 26
    ensures UpperCase[d] as int == 'A' as int + d
  {
  }

  lemma DecimalDigitsRun(d: int)
    requires 0 <= d < 10
    ensures DecimalDigits[d] as int == '0' as int + d
  {
  }

  /** Where symbol `d` of the table comes from, by run. */
  lemma SymbolRun(d: int)
    requires 0 <= d < 91
    ensures d < 26 ==> Base91Table[d] as int == 'a' as int + d
    ensures 26 <= d < 52 ==> Base91Table[d] as int == 'A' as int + (d - 26)
    ensures 52 <= d < 62 ==> Base91Table[d] as int == '0' as int + (d - 52)
    ensures 62 <= d ==> Base91Table[d] == Punctuation[d - 62]
  {
    TableSize();
    if d < 26 {
      LowerCaseRun(d);
      assert Base91Table[d] == LowerCase[d];
    } else if d < 52 {
      UpperCaseRun(d - 26);
      assert Base91Table[d] == UpperCase[d - 26];
    } else if d < 62 {
      DecimalDigitsRun(d - 52);
      assert Base91Table[d] == DecimalDigits[d - 52];
    } else {
      assert Base91Table[d] == Punctuation[d - 62];
    }
  }

  /** BASE91_TABLE has 91 pairwise-distinct symbols. */
  lemma TableDistinct()
    ensures |Base91Table| == 91
    ensures forall i, j | 0 <= i < j < |Base91Table| :: Base91Table[i] != Base91Table[j]
  {
    TableSize();
    forall i, j | 0 <= i < j < |Base91Table|
      ensures Base91Table[i] != Base91Table[j]
    {
      SymbolRun(i);
      SymbolRun(j);
      if 62 <= i {
        PunctuationAscending();
      } else if 62 <= j {
        PunctuationNotAlphanumeric(j - 62);
      }
    }
  }

  /** Every symbol of a string is a base-91 digit. */
  predicate IsBase91(s: string) {
    forall k | 0 <= k < |s| :: s[k] in Base91Table
  }

  /** The value of a base-91 symbol: its index in the table. */
  function DigitOf(c: char): (d: nat)
    requires c in Base91Table
    ensures d < |Base91Table| && Base91Table[d] == c
  {
    IndexOf(Base91Table, c)
  }

  /** Every entry is a digit below 91. */
  predicate Digits(ds: seq<nat>) {
    forall k | 0 <= k < |ds| :: ds[k] < 91
  }

  /** The base-91 digits of `n`, most significant first, with no leading
      zero digit; zero has no digits. */
  function Digits91(n: nat): (ds: seq<nat>)
    ensures Digits(ds)
    ensures n == 0 <==> ds == []
    ensures n > 0 ==> ds[0] != 0
    decreases n
  {
    if n == 0 then [] else Digits91(n / 91) + [n % 91]
  }

  /** The number a digit sequence stands for, most significant digit first. */
  function Value91(ds: seq<nat>): nat
    decreases |ds|
  {
    if |ds| == 0 then 0 else Value91(ds[..|ds| - 1]) * 91 + ds[|ds| - 1]
  }

  lemma DivMod91(q: nat, d: nat)
    requires d < 91
    ensures (q * 91 + d) / 91 == q && (q * 91 + d) % 91 == d
  {
  }

  /** Reading the digits of `n` gives `n`. */
  lemma {:induction false} ValueOfDigits(n: nat)
    ensures Value91(Digits91(n)) == n
    decreases n
  {
    if n > 0 {
      var ds := Digits91(n);
      ValueOfDigits(n / 91);
      assert ds[..|ds| - 1] == Digits91(n / 91);
    }
  }

  lemma {:induction false} ValuePositive(ds: seq<nat>)
    requires |ds| > 0 && ds[0] != 0
    ensures Value91(ds) > 0
    decreases |ds|
  {
    if |ds| > 1 {
      ValuePositive(ds[..|ds| - 1]);
    }
  }

  /** A digit sequence without a leading zero is the digits of its value. */
  lemma {:induction false} DigitsOfValue(ds: seq<nat>)
    requires Digits(ds) && (|ds| == 0 || ds[0] != 0)
    ensures Digits91(Value91(ds)) == ds
    decreases |ds|
  {
    if |ds| > 0 {
      var p, d := ds[..|ds| - 1], ds[|ds| - 1];
      assert Digits(p) by {
        forall k | 0 <= k < |p| ensures p[k] < 91 {
          assert p[k] == ds[k];
        }
      }
      DigitsOfValue(p);
      ValuePositive(ds);
      DivMod91(Value91(p), d);
      assert ds == p + [d];
    }
  }

  /** A number below 91^k has at most k base-91 digits. */
  lemma {:induction false} DigitsLength(n: nat, k: nat)
    requires n < Pow(91, k)
    ensures |Digits91(n)| <= k
    decreases k
  {
    if n > 0 {
      assert k > 0 && Pow(91, k) == 91 * Pow(91, k - 1);
      DivBelow(n, Pow(91, k - 1));
      DigitsLength(n / 91, k - 1);
    }
  }

  lemma DivBelow(n: nat, p: nat)
    requires n < 91 * p
    ensures n / 91 < p
  {
  }

  function Pow(b: nat, e: nat): nat
    decreases e
  {
    if e == 0 then 1 else b * Pow(b, e - 1)
  }

  /** The table symbols of a digit sequence. */
  function Symbols(ds: seq<nat>): (s: string)
    requires Digits(ds)
    ensures |s| == |ds|
    ensures forall k | 0 <= k < |ds| :: s[k] == Base91Table[ds[k]]
  {
    TableSize();
    seq(|ds|, k requires 0 <= k < |ds| => Base91Table[ds[k]])
  }

  /** The digit each symbol of a base-91 string stands for. */
  function DigitValues(s: string): (ds: seq<nat>)
    requires IsBase91(s)
    ensures |ds| == |s| && Digits(ds)
    ensures forall k | 0 <= k < |s| :: Base91Table[ds[k]] == s[k]
  {
    TableSize();
    seq(|s|, k requires 0 <= k < |s| && s[k] in Base91Table => DigitOf(s[k]))
  }

  /** Symbols and digits are each other's inverse. */
  lemma DigitValuesOfSymbols(ds: seq<nat>)
    requires Digits(ds)
    ensures DigitValues(Symbols(ds)) == ds
  {
    TableDistinct();
    var s := Symbols(ds);
    var back := DigitValues(s);
    forall k | 0 <= k < |ds| ensures back[k] == ds[k] {
      assert Base91Table[back[k]] == Base91Table[ds[k]];
    }
  }

  lemma SymbolsOfDigitValues(s: string)
    requires IsBase91(s)
    ensures Symbols(DigitValues(s)) == s
  {
  }

  /** `n` in base 91, most significant digit first, with no leading zero
      digit; zero is the empty string. */
  function ToBase91(n: nat): (s: string)
    ensures IsBase91(s)
    ensures n == 0 <==> s == []
    ensures n > 0 ==> s[0] != Base91Table[0]
  {
    TableDistinct();
    Symbols(Digits91(n))
  }

  /** Reads a base-91 string back as a number, most significant digit first. */
  function FromBase91(s: string): nat
    requires IsBase91(s)
  {
    Value91(DigitValues(s))
  }

  /** Reading the digits back reproduces the number. */
  lemma FromToBase91(n: nat)
    ensures FromBase91(ToBase91(n)) == n
  {
    DigitValuesOfSymbols(Digits91(n));
    ValueOfDigits(n);
  }

  /** Distinct numbers get distinct base-91 strings. */
  lemma Base91Injective(m: nat, n: nat)
    ensures ToBase91(m) == ToBase91(n) ==> m == n
  {
    FromToBase91(m);
    FromToBase91(n);
  }

  /** Every base-91 string without a leading zero digit is the writing of its value. */
  lemma ToFromBase91(s: string)
    requires IsBase91(s)
    requires |s| == 0 || s[0] != Base91Table[0]
    ensures ToBase91(FromBase91(s)) == s
  {
    var ds := DigitValues(s);
    assert |ds| == 0 || ds[0] != 0;
    DigitsOfValue(ds);
    SymbolsOfDigitValues(s);
  }

  /** The last symbol of a positive number's writing is its remainder mod 91. */
  lemma ToBase91Snoc(n: nat)
    requires n > 0
    ensures ToBase91(n) == ToBase91(n / 91) + [Base91Table[n % 91]]
  {
    TableSize();
    var ds := Digits91(n);
    assert ds == Digits91(n / 91) + [n % 91];
  }

  /** A number below 91^k is written with at most k symbols. */
  lemma Base91Length(n: nat, k: nat)
    requires n < Pow(91, k)
    ensures |ToBase91(n)| <= k
  {
    DigitsLength(n, k);
  }

  lemma Pow64Below91To10()
    ensures Pow(256, 8) == 18446744073709551616
    ensures Pow(91, 10) == 38941611811810745401
  {
  }

  /** The conversion loop of `guid_for`: remainders are collected least
      significant first and the list is reversed at the end. */
  method Base91Encode(hashInt: nat) returns (s: string)
    ensures s == ToBase91(hashInt)
    ensures IsBase91(s) && FromBase91(s) == hashInt
    ensures hashInt == 0 <==> s == ""
  {
    TableSize();
    var rvReversed: string := [];
    var n: nat := hashInt;
    while n > 0
      invariant ToBase91(n) + Reverse(rvReversed) == ToBase91(hashInt)
      decreases n
    {
      ToBase91Snoc(n);
      ReverseSnoc(rvReversed, Base91Table[n % 91]);
      rvReversed := rvReversed + [Base91Table[n % 91]];
      n := n / 91;
    }
    s := Reverse(rvReversed);
    FromToBase91(hashInt);
  }

  /** Bytes read as an unsigned big-endian number. */
  function BigEndian(bytes: seq<uint8>): nat
    decreases |bytes|
  {
    if |bytes| == 0 then 0
    else BigEndian(bytes[..|bytes| - 1]) * 256 + bytes[|bytes| - 1] as nat
  }

  /** The `k` low bytes of `n`, most significant first (Python's
      `n.to_bytes(k, 'big')`). */
  function BigEndianBytes(n: nat, k: nat): (bytes: seq<uint8>)
    ensures |bytes| == k
    decreases k
  {
    if k == 0 then [] else BigEndianBytes(n / 256, k - 1) + [(n % 256) as uint8]
  }

  /** k bytes hold values below 256^k. */
  lemma {:induction false} BigEndianBound(bytes: seq<uint8>)
    ensures BigEndian(bytes) < Pow(256, |bytes|)
    decreases |bytes|
  {
    if |bytes| > 0 {
      var init := bytes[..|bytes| - 1];
      BigEndianBound(init);
      var p := Pow(256, |init|);
      assert BigEndian(init) * 256 <= (p - 1) * 256;
    }
  }

  /** Writing a value in k bytes and reading it back gives the value. */
  lemma {:induction false} BigEndianOfBytes(n: nat, k: nat)
    requires n < Pow(256, k)
    ensures BigEndian(BigEndianBytes(n, k)) == n
    decreases k
  {
    if k > 0 {
      var bytes := BigEndianBytes(n, k);
      assert bytes[..k - 1] == BigEndianBytes(n / 256, k - 1);
      assert n / 256 < Pow(256, k - 1);
      BigEndianOfBytes(n / 256, k - 1);
    }
  }

  /** Reading bytes and writing the value back in as many bytes gives the bytes. */
  lemma {:induction false} BytesOfBigEndian(bytes: seq<uint8>)
    ensures BigEndianBytes(BigEndian(bytes), |bytes|) == bytes
    decreases |bytes|
  {
    if |bytes| > 0 {
      var init := bytes[..|bytes| - 1];
      var n := BigEndian(bytes);
      assert n / 256 == BigEndian(init) && n % 256 == bytes[|bytes| - 1] as nat;
      BytesOfBigEndian(init);
      assert bytes == init + [bytes[|bytes| - 1]];
    }
  }

  /** The folding loop of `guid_for`: `hash_int <<= 8; hash_int += b` per byte. */
  method FoldBytes(bytes: seq<uint8>) returns (hashInt: nat)
    ensures hashInt == BigEndian(bytes)
    ensures hashInt < Pow(256, |bytes|)
  {
    hashInt := 0;
    for i := 0 to |bytes|
      invariant hashInt == BigEndian(bytes[..i])
    {
      assert bytes[..i + 1][..i] == bytes[..i];
      hashInt := hashInt * 256;
      hashInt := hashInt + bytes[i] as nat;
    }
    assert bytes[..|bytes|] == bytes;
    BigEndianBound(bytes);
  }

  /** The string `guid_for` hashes: the values joined with `"__"`. */
  function HashInput(values: seq<string>): string {
    Join(values, GuidSeparator)
  }

  /** The number `guid_for` writes in base 91: the first eight digest bytes, big-endian. */
  function HashInt(values: seq<string>, sha256: string -> Digest): nat {
    BigEndian(sha256(HashInput(values))[..8])
  }

  /** `guid_for(*values)`. */
  function GuidFor(values: seq<string>, sha256: string -> Digest): (guid: string)
    ensures IsBase91(guid)
    ensures FromBase91(guid) == HashInt(values, sha256)
    ensures |guid| <= 10
    ensures guid == "" <==> HashInt(values, sha256) == 0
    ensures |guid| > 0 ==> guid[0] != Base91Table[0]
  {
    FromToBase91(HashInt(values, sha256));
    BigEndianBound(sha256(HashInput(values))[..8]);
    Pow64Below91To10();
    Base91Length(HashInt(values, sha256), 10);
    ToBase91(HashInt(values, sha256))
  }

  /** The guid is the only canonical base-91 string (no leading zero symbol)
      that reads back as the hash value. */
  lemma GuidForCanonical(values: seq<string>, sha256: string -> Digest, s: string)
    ensures IsBase91(s) && (|s| == 0 || s[0] != Base91Table[0]) && FromBase91(s) == HashInt(values, sha256)
            <==> s == GuidFor(values, sha256)
  {
    if IsBase91(s) && (|s| == 0 || s[0] != Base91Table[0]) && FromBase91(s) == HashInt(values, sha256) {
      ToFromBase91(s);
      FromToBase91(HashInt(values, sha256));
    }
  }

  /** `guid_for` step by step as the library writes it: join, hash, fold
      the first eight bytes, convert to base 91. */
  method ComputeGuid(values: seq<string>, sha256: string -> Digest) returns (guid: string)
    ensures guid == GuidFor(values, sha256)
  {
    var hashStr := Join(values, GuidSeparator);
    var hashBytes := sha256(hashStr)[..8];
    var hashInt := FoldBytes(hashBytes);
    guid := Base91Encode(hashInt);
  }

  /** Value lists whose `"__"`-joins coincide get the same identifier,
      whatever the hash: `["a__b"]` and `["a", "b"]` collide. */
  lemma GuidDependsOnlyOnJoin(a: seq<string>, b: seq<string>, sha256: string -> Digest)
    requires HashInput(a) == HashInput(b)
    ensures GuidFor(a, sha256) == GuidFor(b, sha256)
  {
  }

  lemma SeparatorCollision(sha256: string -> Digest)
    ensures GuidFor(["a__b"], sha256) == GuidFor(["a", "b"], sha256)
  {
    assert HashInput(["a", "b"]) == "a__b" == HashInput(["a__b"]);
    GuidDependsOnlyOnJoin(["a__b"], ["a", "b"], sha256);
  }
}
