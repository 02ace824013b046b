/** Little-endian 16-bit words in byte memory. */
module Memory {
  import opened Remainders

  type byte = x: int | 0 <= x < 256

  const WORD: nat := 0x10000

  function Word(m: seq<byte>, a: nat): (v: nat)
    ensures v < WORD
  {
    if a + 1 < |m| then m[a] as int + 256 * m[a + 1] as int else 0
  }

  /** `m'` is `m` after storing the word `v` at `a`. */
  ghost predicate Stored(m: seq<byte>, m': seq<byte>, a: nat, v: nat) {
    && |m'| == |m|
    && Word(m', a) == v
    && (forall x :: 0 <= x < |m| && x != a && x != a + 1 ==> m'[x] == m[x])
    && (forall b: nat :: b + 1 < a || a + 1 < b ==> Word(m', b) == Word(m, b))
  }

  /** The two bytes of a word. */
  function Low(v: nat): byte {
    v % 256
  }

  function High(v: nat): byte {
    v / 256 % 256
  }

  lemma Bytes(v: nat)
    ensures Low(v) as int + 256 * High(v) as int == v % WORD
  {
    var q, r := v / 256, v % 256;
    var p, t := q / 256, q % 256;
    assert v == 256 * q + r && q == 256 * p + t;
    DivIs(v, p, 256 * t + r, WORD);
  }

  /** The stores of the C code, one word at a time; what does not fit a word is cut off. */
  method Store(mem: array<byte>, a: nat, v: nat)
    requires a + 1 < mem.Length
    modifies mem
    ensures Stored(old(mem[..]), mem[..], a, v % WORD)
  {
    Bytes(v);
    mem[a] := Low(v);
    mem[a + 1] := High(v);
  }

  function Load(mem: array<byte>, a: nat): (v: nat)
    reads mem
    requires a + 1 < mem.Length
    ensures v == Word(mem[..], a)
  {
    mem[a] as int + 256 * mem[a + 1] as int
  }
}
