/** Names of the topics shards talk over (sharding/multiShardCoordinator.go). */
module Topics {
  import opened NodesCoordination

  function Digit(d: nat): char
    requires d < 10
  {
    '0' + d as char
  }

  /** `%d` of a non-negative number. */
  function Decimal(n: nat): (s: string)
    ensures |s| > 0
    ensures forall i | 0 <= i < |s| :: '0' <= s[i] <= '9'
  {
    if n < 10 then [Digit(n)] else Decimal(n / 10) + [Digit(n % 10)]
  }

  function DecimalValue(s: string): (n: int) {
    if s == [] then 0 else 10 * DecimalValue(s[..|s| - 1]) + (s[|s| - 1] as int - '0' as int)
  }

  lemma {:induction false} DecimalRoundTrip(n: nat)
    ensures DecimalValue(Decimal(n)) == n
  {
    if n < 10 {
      assert Decimal(n)[..0] == [];
    } else {
      DecimalRoundTrip(n / 10);
      assert Decimal(n)[..|Decimal(n)| - 1] == Decimal(n / 10);
    }
  }

  /** Digits only, and no zero in front of others. */
  predicate IsNumeral(s: string) {
    s != "" && (forall i | 0 <= i < |s| :: '0' <= s[i] <= '9') && (|s| > 1 ==> s[0] != '0')
  }

  lemma {:induction false} DecimalFirst(n: nat)
    ensures n > 0 ==> Decimal(n)[0] != '0'
    ensures n >= 10 <==> |Decimal(n)| > 1
  {
    if n >= 10 {
      DecimalFirst(n / 10);
    }
  }

  lemma {:induction false} NumeralValue(s: string)
    requires IsNumeral(s)
    ensures DecimalValue(s) >= 0 && (|s| > 1 ==> DecimalValue(s) >= 10) && (s[0] != '0' ==> DecimalValue(s) > 0)
  {
    if |s| > 1 {
      NumeralValue(s[..|s| - 1]);
    } else {
      assert s[..0] == "";
    }
  }

  /** Only numerals are printed. */
  lemma PrintedIsNumeral(n: nat)
    ensures IsNumeral(Decimal(n))
  {
    DecimalFirst(n);
    hide Decimal;
  }

  lemma OneMoreDigit(s: string, n: nat, c: char)
    requires n > 0 && s == Decimal(n) && '0' <= c <= '9'
    ensures s + [c] == Decimal(10 * n + (c as int - '0' as int))
  {
    var v := 10 * n + (c as int - '0' as int);
    assert v / 10 == n && v % 10 == c as int - '0' as int;
  }

  /** Reading a numeral and printing it again gives the numeral back. */
  lemma {:induction false} NumeralRoundTrip(s: string)
    requires IsNumeral(s)
    ensures DecimalValue(s) >= 0 && Decimal(DecimalValue(s)) == s
  {
    NumeralValue(s);
    var k := |s| - 1;
    if k == 0 {
      assert s[..0] == "" && s == [s[0]];
    } else {
      NumeralRoundTrip(s[..k]);
      NumeralValue(s[..k]);
      assert DecimalValue(s) == 10 * DecimalValue(s[..k]) + (s[k] as int - '0' as int);
      hide Decimal, DecimalValue;
      OneMoreDigit(s[..k], DecimalValue(s[..k]), s[k]);
      assert s == s[..k] + [s[k]];
    }
  }

  /** The part of a shard's name after the underscore. */
  function ShardName(shardId: nat): string {
    if shardId == METACHAIN_SHARD_ID then "META" else Decimal(shardId)
  }

  function ShardIdToString(shardId: nat): (s: string) {
    if shardId == METACHAIN_SHARD_ID then "_META" else "_" + Decimal(shardId)
  }

  predicate NoUnderscore(s: string) {
    forall i | 0 <= i < |s| :: s[i] != '_'
  }

  lemma DecimalHasNoUnderscore(n: nat)
    ensures NoUnderscore(Decimal(n))
  {
    hide Decimal;
  }

  lemma NameShape(shardId: nat)
    ensures ShardIdToString(shardId) == "_" + ShardName(shardId) && NoUnderscore(ShardName(shardId))
  {
    if shardId == METACHAIN_SHARD_ID {
      assert "_META" == "_" + "META";
    } else {
      DecimalHasNoUnderscore(shardId);
    }
  }

  lemma NameInjective(a: nat, b: nat)
    requires ShardName(a) == ShardName(b)
    ensures a == b
  {
    DecimalRoundTrip(a);
    DecimalRoundTrip(b);
    assert "META"[0] == 'M';
  }

  function CommunicationIdentifier(shardId1: nat, shardId2: nat): (id: string) {
    if shardId1 == shardId2 then ShardIdToString(shardId1)
    else if shardId1 < shardId2 then ShardIdToString(shardId1) + ShardIdToString(shardId2)
    else ShardIdToString(shardId2) + ShardIdToString(shardId1)
  }

  /** The names themselves: the lower shard first, the metachain last. */
  lemma TopicNames(a: nat, b: nat)
    requires a < b < METACHAIN_SHARD_ID
    ensures CommunicationIdentifier(a, a) == "_" + Decimal(a)
    ensures CommunicationIdentifier(a, b) == CommunicationIdentifier(b, a) == "_" + Decimal(a) + "_" + Decimal(b)
    ensures CommunicationIdentifier(a, METACHAIN_SHARD_ID) == "_" + Decimal(a) + "_META"
    ensures CommunicationIdentifier(METACHAIN_SHARD_ID, METACHAIN_SHARD_ID) == "_META"
  {
    assert "_" + Decimal(a) + "_" + Decimal(b) == "_" + Decimal(a) + ("_" + Decimal(b));
  }

  /** The text before the first underscore. */
  function UpToUnderscore(s: string): string {
    if s == [] || s[0] == '_' then [] else [s[0]] + UpToUnderscore(s[1..])
  }

  lemma {:induction false} UpToIsFirstPart(a: string, s: string)
    requires NoUnderscore(a) && (s == [] || s[0] == '_')
    ensures UpToUnderscore(a + s) == a
  {
    if a == [] {
      assert a + s == s;
    } else {
      assert (a + s)[1..] == a[1..] + s;
      UpToIsFirstPart(a[1..], s);
    }
  }

  /** A text is cut at its first underscore in one way only. */
  lemma CutAtUnderscore(a: string, s: string, b: string, t: string)
    requires NoUnderscore(a) && NoUnderscore(b)
    requires (s == [] || s[0] == '_') && (t == [] || t[0] == '_')
    requires a + s == b + t
    ensures a == b && s == t
  {
    UpToIsFirstPart(a, s);
    UpToIsFirstPart(b, t);
    assert s == (a + s)[|a|..] && t == (b + t)[|b|..];
  }

  /** What follows the smaller shard's name. */
  function Rest(lo: nat, hi: nat): string {
    if lo == hi then "" else ShardIdToString(hi)
  }

  lemma IdentifierShape(a: nat, b: nat)
    ensures var lo, hi := if a < b then a else b, if a < b then b else a;
            CommunicationIdentifier(a, b) == "_" + (ShardName(lo) + Rest(lo, hi))
  {
    var lo, hi := if a < b then a else b, if a < b then b else a;
    NameShape(lo);
    assert "_" + (ShardName(lo) + Rest(lo, hi)) == ("_" + ShardName(lo)) + Rest(lo, hi);
  }

  /** Two pairs of shards, metachain included, share a topic exactly when they are the same pair,
      in either order. */
  lemma IdentifierIdentifiesPair(a: nat, b: nat, c: nat, d: nat)
    ensures CommunicationIdentifier(a, b) == CommunicationIdentifier(c, d)
            <==> (a == c && b == d) || (a == d && b == c)
  {
    if CommunicationIdentifier(a, b) == CommunicationIdentifier(c, d) {
      var lo1, hi1 := if a < b then a else b, if a < b then b else a;
      var lo2, hi2 := if c < d then c else d, if c < d then d else c;
      IdentifierShape(a, b);
      IdentifierShape(c, d);
      var x, y := ShardName(lo1) + Rest(lo1, hi1), ShardName(lo2) + Rest(lo2, hi2);
      assert x == ("_" + x)[1..] && y == ("_" + y)[1..];
      NameShape(lo1);
      NameShape(lo2);
      NameShape(hi1);
      NameShape(hi2);
      CutAtUnderscore(ShardName(lo1), Rest(lo1, hi1), ShardName(lo2), Rest(lo2, hi2));
      NameInjective(lo1, lo2);
      if lo1 != hi1 {
        assert ShardName(hi1) == ("_" + ShardName(hi1))[1..] && ShardName(hi2) == ("_" + ShardName(hi2))[1..];
        NameInjective(hi1, hi2);
      }
    }
  }
}
