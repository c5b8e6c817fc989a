/** gp_memcpy_align against gp_memcpy: copying by load-multiple and store-multiple of up to nine words. */
module WordCopy {
  import opened Bytes

  /** Memory after n bytes from s have been copied to d. */
  function Moved(m: seq<Byte>, d: nat, s: nat, n: nat): seq<Byte>
    requires d + n <= |m| && s + n <= |m|
  {
    m[..d] + m[s..s + n] + m[d + n..]
  }

  predicate Apart(d: nat, s: nat, n: nat) { d + n <= s || s + n <= d }

  /** Words copied for a length in bytes: a length that is no whole number of words costs sixteen more. */
  function CopiedWords(len: nat): nat { if len % 4 == 0 then len / 4 else len / 4 + 16 }

  lemma CopiedBytes(len: nat)
    ensures 4 * CopiedWords(len) == if len % 4 == 0 then len else len - len % 4 + 64
  {
  }

  lemma MovedAt(m: seq<Byte>, d: nat, s: nat, n: nat, i: nat)
    requires d + n <= |m| && s + n <= |m| && i < |m|
    ensures |Moved(m, d, s, n)| == |m|
    ensures Moved(m, d, s, n)[i] == if d <= i < d + n then m[s + i - d] else m[i]
  {
  }

  /** n bytes of t at d are those m had at s, and all others are as they were. */
  ghost predicate Copied(m: seq<Byte>, t: seq<Byte>, d: nat, s: nat, n: nat) {
    && |t| == |m| && d + n <= |m| && s + n <= |m| && t[d..d + n] == m[s..s + n]
    && forall i :: 0 <= i < |m| && !(d <= i < d + n) ==> t[i] == m[i]
  }

  lemma MovedCopies(m: seq<Byte>, d: nat, s: nat, n: nat)
    requires d + n <= |m| && s + n <= |m|
    ensures Copied(m, Moved(m, d, s, n), d, s, n)
  {
  }

  lemma MovedTwice(m: seq<Byte>, d: nat, s: nat, a: nat, b: nat)
    requires d + a + b <= |m| && s + a + b <= |m| && Apart(d, s, a + b)
    ensures Moved(Moved(m, d, s, a), d + a, s + a, b) == Moved(m, d, s, a + b)
  {
    var t := Moved(m, d, s, a);
    var l, r := Moved(t, d + a, s + a, b), Moved(m, d, s, a + b);
    assert |l| == |m| == |r|;
    hide Moved;
    forall i | 0 <= i < |m| ensures l[i] == r[i] {
      MovedAt(m, d, s, a, i);
      MovedAt(t, d + a, s + a, b, i);
      MovedAt(m, d, s, a + b, i);
      if d + a <= i < d + a + b { MovedAt(m, d, s, a, s + i - d); }
    }
  }

  lemma MovedNone(m: seq<Byte>, d: nat, s: nat)
    requires d <= |m| && s <= |m|
    ensures Moved(m, d, s, 0) == m
  {
  }

  /** The two copies leave the same memory, whatever it held, exactly when the length is a whole number of
      words. */
  lemma AlignedCopyExact(d: nat, s: nat, len: nat, size: nat)
    requires Apart(d, s, 4 * CopiedWords(len))
    requires d + 4 * CopiedWords(len) <= size && s + 4 * CopiedWords(len) <= size
    ensures (forall m: seq<Byte> :: |m| == size ==> Moved(m, d, s, 4 * CopiedWords(len)) == Moved(m, d, s, len))
      <==> len % 4 == 0
  {
    hide Moved;
    var n := 4 * CopiedWords(len);
    if len % 4 != 0 {
      var m := seq<Byte>(size, i => if s <= i < s + n then 1 else 0);
      MovedAt(m, d, s, n, d + len);
      MovedAt(m, d, s, len, d + len);
      assert m[s + len] == 1 && m[d + len] == 0;
    }
  }

  /** gp_memcpy. */
  method Memcpy(mem: array<Byte>, d: nat, s: nat, len: nat)
    requires d + len <= mem.Length && s + len <= mem.Length && Apart(d, s, len)
    modifies mem
    ensures mem[..] == Moved(old(mem[..]), d, s, len)
    ensures Copied(old(mem[..]), mem[..], d, s, len)
  {
    hide Moved, Copied;
    ghost var m := mem[..];
    MovedCopies(m, d, s, len);
    MovedNone(m, d, s);
    for i := 0 to len
      invariant mem[..] == Moved(m, d, s, i)
    {
      Block(mem, d + i, s + i, 1);
      MovedTwice(m, d, s, i, 1);
    }
  }

  /** Some words are loaded into registers and then stored. */
  method Block(mem: array<Byte>, d: nat, s: nat, n: nat)
    requires d + n <= mem.Length && s + n <= mem.Length
    modifies mem
    ensures mem[..] == Moved(old(mem[..]), d, s, n)
  {
    ghost var m := mem[..];
    var registers := mem[s..s + n];
    for i := 0 to n
      invariant forall k :: 0 <= k < mem.Length ==> mem[k] == if d <= k < d + i then registers[k - d] else m[k]
    {
      mem[d + i] := registers[i];
    }
    assert mem[..] == Moved(m, d, s, n);
  }

  /** gp_memcpy_align: first the words left over from groups of sixteen, then groups up to the end address. */
  method MemcpyAlign(mem: array<Byte>, dst: nat, src: nat, len: nat)
    requires dst + 4 * CopiedWords(len) <= mem.Length && src + 4 * CopiedWords(len) <= mem.Length
    requires Apart(dst, src, 4 * CopiedWords(len))
    modifies mem
    ensures mem[..] == Moved(old(mem[..]), dst, src, 4 * CopiedWords(len))
    ensures Copied(old(mem[..]), mem[..], dst, src, if len % 4 == 0 then len else len - len % 4 + 64)
  {
    hide Moved, Copied, Groups, CopiedWords, More, LeftOver;
    CopiedBytes(len);
    MovedCopies(mem[..], dst, src, 4 * CopiedWords(len));
    GroupsExact(len);
    var words := LeftOver(len);
    ghost var groups := Groups(len);
    ghost var m := mem[..];
    Head(mem, dst, src, words);
    CopyGroups(mem, dst, src, len, words, groups);
    MovedTwice(m, dst, src, 4 * words, 64 * groups);
  }

  /** The loop up to the end address. */
  method CopyGroups(mem: array<Byte>, dst: nat, src: nat, len: nat, words: nat, ghost groups: nat)
    requires forall g :: 0 <= g <= groups ==> (More(len, words, g) <==> g < groups)
    requires dst + 4 * words + 64 * groups <= mem.Length && src + 4 * words + 64 * groups <= mem.Length
    requires Apart(dst, src, 4 * words + 64 * groups)
    modifies mem
    ensures mem[..] == Moved(old(mem[..]), dst + 4 * words, src + 4 * words, 64 * groups)
  {
    hide Moved;
    ghost var m := mem[..];
    var end := dst + len;
    var d, s := dst + 4 * words, src + 4 * words;
    ghost var g := 0;
    MovedNone(m, d, s);
    while d < end
      invariant g <= groups && d == dst + 4 * words + 64 * g && s == src + 4 * words + 64 * g
      invariant mem[..] == Moved(m, dst + 4 * words, src + 4 * words, 64 * g)
      decreases groups - g
    {
      assert More(len, words, g);
      Block(mem, d, s, 32);
      MovedTwice(m, dst + 4 * words, src + 4 * words, 64 * g, 32);
      d, s := d + 32, s + 32;
      Block(mem, d, s, 32);
      MovedTwice(m, dst + 4 * words, src + 4 * words, 64 * g + 32, 32);
      d, s, g := d + 32, s + 32, g + 1;
    }
    assert !More(len, words, g);
  }

  predicate More(len: nat, words: nat, g: nat) { 4 * words + 64 * g < len }

  function LeftOver(len: nat): nat { len / 4 % 16 }

  /** Rounds of the loop over groups of sixteen words. */
  function Groups(len: nat): nat { len / 4 / 16 + if len % 4 == 0 then 0 else 1 }

  lemma GroupsExact(len: nat)
    ensures var w := LeftOver(len);
      && w < 16 && w + 16 * Groups(len) == CopiedWords(len)
      && (forall g :: 0 <= g <= Groups(len) ==> (More(len, w, g) <==> g < Groups(len)))
  {
  }

  /** The cases of the switch: two blocks from ten words on, one below. */
  method Head(mem: array<Byte>, dst: nat, src: nat, words: nat)
    requires words < 16 && dst + 4 * words <= mem.Length && src + 4 * words <= mem.Length
    requires Apart(dst, src, 4 * words)
    modifies mem
    ensures mem[..] == Moved(old(mem[..]), dst, src, 4 * words)
  {
    hide Moved;
    ghost var m := mem[..];
    if words >= 10 {
      var few := 4 * (words - 8);
      Block(mem, dst, src, few);
      Block(mem, dst + few, src + few, 32);
      MovedTwice(m, dst, src, few, 32);
    } else {
      Block(mem, dst, src, 4 * words);
    }
  }
}
