/**
 * The random source of the game. `Math.random()` is modelled as an injected
 * stream of draws, each a real number in [0, 1); `getRandomInt(min, max)` maps
 * one draw to an integer of [min, max] exactly as the source's formula does.
 */
module Random {

  /** A draw of Math.random(): a real number in [0, 1). */
  type Draw = u: real | 0.0 <= u < 1.0

  /** getRandomInt(min, max): floor(u * (max - min + 1)) + min for the draw u. */
  function GetRandomInt(u: Draw, min: int, max: int): (r: int)
    requires min <= max
    ensures min <= r <= max
  {
    var span := max - min + 1;
    var x := u * span as real;
    assert 0.0 <= x < span as real by {
      var gap := 1.0 - u;
      assert gap > 0.0 && span as real > 0.0;
      assert gap * span as real > 0.0;
      assert span as real - x == gap * span as real;
    }
    x.Floor + min
  }

  /** Every integer of [min, max] is the image of some draw: no value of the range is unreachable. */
  lemma GetRandomIntOnto(min: int, max: int, k: int)
    requires min <= k <= max
    ensures exists u: Draw :: GetRandomInt(u, min, max) == k
  {
    var span := (max - min + 1) as real;
    var off := (k - min) as real;
    var u: Draw := off / span;
    assert u * span == off;
    assert GetRandomInt(u, min, max) == k;
  }

  /**
   * The ambient generator behind Math.random(): a fixed stream of draws and the
   * position of the next one. Each call of Next consumes exactly one draw.
   */
  class RandomSource {
    const stream: nat -> Draw
    var pos: nat

    constructor (stream: nat -> Draw)
      ensures this.stream == stream && pos == 0
    {
      this.stream := stream;
      pos := 0;
    }

    /** getRandomInt(min, max) applied to the next draw of the stream. */
    method Next(min: int, max: int) returns (r: int)
      requires min <= max
      modifies this
      ensures pos == old(pos) + 1
      ensures r == GetRandomInt(stream(old(pos)), min, max)
      ensures min <= r <= max
    {
      r := GetRandomInt(stream(pos), min, max);
      pos := pos + 1;
    }
  }
}
