/**
 * Player.java: a player's name (its identity), its game type and a win counter.
 * The name and type are final; only `wonAGame` changes the object.
 */
module Players {

  datatype GameType = NORMAL | TOURNAMENT

  const TWO_TO_32: int := 0x1_0000_0000
  const TWO_TO_31: int := 0x8000_0000

  predicate IsJavaInt(x: int) {
    -TWO_TO_31 <= x < TWO_TO_31
  }

  /** Java's 32-bit two's-complement wrap-around of an unbounded integer. */
  function ToJavaInt(x: int): (r: int)
    ensures IsJavaInt(r)
    ensures (x - r) % TWO_TO_32 == 0
  {
    var m := x % TWO_TO_32;
    if m >= TWO_TO_31 then m - TWO_TO_32 else m
  }

  /** `String.hashCode`: h = 31 * h + c over the characters, in 32-bit arithmetic. */
  function StringHashCode(s: string): (h: int)
    ensures IsJavaInt(h)
    decreases |s|
  {
    if |s| == 0 then 0
    else ToJavaInt(31 * StringHashCode(s[..|s| - 1]) + s[|s| - 1] as int)
  }

  /** The same polynomial, s[0] * 31^(n-1) + ... + s[n-1], without wrap-around. */
  function Polynomial(s: string): int
    decreases |s|
  {
    if |s| == 0 then 0 else 31 * Polynomial(s[..|s| - 1]) + s[|s| - 1] as int
  }

  lemma WrapOfCongruent(a: int, b: int)
    requires (a - b) % TWO_TO_32 == 0
    ensures ToJavaInt(a) == ToJavaInt(b)
  {
    var k := (a - b) / TWO_TO_32;
    assert a == b + k * TWO_TO_32;
    assert a % TWO_TO_32 == b % TWO_TO_32;
  }

  /** One step of the hash keeps two congruent accumulators congruent. */
  lemma StepKeepsCongruence(h: int, p: int, c: int)
    requires (p - h) % TWO_TO_32 == 0
    ensures ((31 * p + c) - (31 * h + c)) % TWO_TO_32 == 0
  {
    var k := (p - h) / TWO_TO_32;
    assert p - h == k * TWO_TO_32;
    assert (31 * p + c) - (31 * h + c) == 31 * (p - h);
    assert 31 * (p - h) == (31 * k) * TWO_TO_32;
  }

  /** Wrapping after every step gives the wrapped value of the whole polynomial. */
  lemma {:induction false} StringHashCodeIsWrappedPolynomial(s: string)
    ensures StringHashCode(s) == ToJavaInt(Polynomial(s))
    decreases |s|
  {
    if |s| > 0 {
      var init := s[..|s| - 1];
      StringHashCodeIsWrappedPolynomial(init);
      var h, p := StringHashCode(init), Polynomial(init);
      var c := s[|s| - 1] as int;
      assert StringHashCode(s) == ToJavaInt(31 * h + c);
      assert Polynomial(s) == 31 * p + c;
      StepKeepsCongruence(h, p, c);
      WrapOfCongruent(31 * p + c, 31 * h + c);
    }
  }

  /** `Objects.hash(name)`: 31 * 1 + name.hashCode(), in 32-bit arithmetic. */
  function ObjectsHash(name: string): (h: int)
    ensures IsJavaInt(h)
  {
    ToJavaInt(31 + StringHashCode(name))
  }

  class Player {
    const name: string
    const gameType: GameType
    var wins: int

    constructor (name: string, gameType: GameType)
      ensures this.name == name && this.gameType == gameType && wins == 0
    {
      this.name := name;
      this.gameType := gameType;
      wins := 0;
    }

    /** `wonAGame`: one more win; name and type are final. */
    method WonAGame()
      modifies this`wins
      ensures wins == old(wins) + 1
    {
      wins := wins + 1;
    }

    predicate IsTournament() {
      gameType == TOURNAMENT
    }

    /** `equals(Object)`: the same object, or another Player with the same name. */
    predicate Equals(obj: object?): (b: bool)
      ensures b <==> obj is Player && (obj as Player).name == name
    {
      if obj == this then true
      else if !(obj is Player) then false
      else name == (obj as Player).name
    }

    /** `hashCode`: `Objects.hash` of the name alone. */
    function HashCode(): (h: int)
      ensures IsJavaInt(h)
    {
      ObjectsHash(name)
    }

    function ToString(): (s: string)
      ensures |s| >= 13 && s[..13] == "Player Name: " && s[13..] == name
    {
      "Player Name: " + name
    }
  }

  /** Two players are equal exactly when their names are; type and wins play no part. */
  lemma EqualsIsSameName(p: Player, obj: object?)
    ensures p.Equals(obj) <==> obj is Player && (obj as Player).name == p.name
    ensures obj == null ==> !p.Equals(obj)
  {
  }

  /** Player equality is an equivalence relation. */
  lemma EqualsIsEquivalence(p: Player, q: Player, r: Player)
    ensures p.Equals(p)
    ensures p.Equals(q) <==> q.Equals(p)
    ensures p.Equals(q) && q.Equals(r) ==> p.Equals(r)
  {
  }

  /** Equal players hash alike, as `hashCode` must agree with `equals`. */
  lemma EqualPlayersHashAlike(p: Player, q: Player)
    requires p.Equals(q)
    ensures p.HashCode() == q.HashCode()
  {
  }

  /** The rendered text of a player names the player uniquely. */
  lemma ToStringDeterminesIdentity(p: Player, q: Player)
    ensures p.ToString() == q.ToString() <==> p.Equals(q)
  {
    if p.ToString() == q.ToString() {
      assert p.name == p.ToString()[13..];
    }
  }
}
