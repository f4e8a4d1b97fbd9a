/** Table sizes of the open-addressing map and of the allocator's hash index. */
module Powers {

  predicate IsPowerOfTwo(n: nat) {
    n == 1 || (n != 0 && n % 2 == 0 && IsPowerOfTwo(n / 2))
  }

  /** There is one power of two from n up to its double. */
  lemma {:induction false} OnePower(a: nat, b: nat)
    requires IsPowerOfTwo(a) && IsPowerOfTwo(b) && a <= b < 2 * a
    ensures a == b
    decreases a
  {
    if a > 1 {
      OnePower(a / 2, b / 2);
    }
  }

  lemma TwicePower(n: nat)
    requires IsPowerOfTwo(n)
    ensures IsPowerOfTwo(n * 2) && IsPowerOfTwo(2 * n)
  {
  }

  lemma Sixteen()
    ensures IsPowerOfTwo(16)
  {
    assert IsPowerOfTwo(2) && IsPowerOfTwo(4) && IsPowerOfTwo(8);
  }
}
