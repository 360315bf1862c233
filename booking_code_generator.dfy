/** `BookingCodeGenerator`: draws ten-character codes until one is not yet in the reference store,
    then records it. The random draw is a nondeterministic choice. */
module BookingCodeGenerator {
  import opened Wrappers

  /** The 35 symbols a code is drawn from: the capital letters and the digits 1 to 9. */
  const Alphabet: string := "ABCDEFGHIJKLMNOPQRSTUVWXYZ123456789"
  const CodeLength: nat := 10

  predicate InAlphabet(code: string) {
    forall i :: 0 <= i < |code| ==> code[i] in Alphabet
  }

  /** A code as the generator produces it. */
  predicate WellFormedCode(code: string) {
    |code| == CodeLength && InAlphabet(code)
  }

  /** The alphabet has 35 distinct symbols and no zero, so a code never holds `0`. */
  lemma AlphabetFacts(code: string)
    requires InAlphabet(code)
    ensures |Alphabet| == 35
    ensures forall i, j :: 0 <= i < j < |Alphabet| ==> Alphabet[i] != Alphabet[j]
    ensures '0' !in code
  {
    assert forall i :: 0 <= i < 26 ==> Alphabet[i] as int == 'A' as int + i;
    assert forall i :: 26 <= i < 35 ==> Alphabet[i] as int == '1' as int + (i - 26);
  }

  /** `generateRandomAlphaNumericCode`: `length` independent draws from the alphabet. */
  method GenerateRandomAlphaNumericCode(length: nat) returns (code: string)
    ensures |code| == length && InAlphabet(code)
  {
    code := "";
    for i := 0 to length
      invariant |code| == i && InAlphabet(code)
    {
      var index :| 0 <= index < |Alphabet|;
      code := code + [Alphabet[index]];
    }
  }

  /** The `booking_references` table, append-only; the generator never stores a code twice. */
  class ReferenceStore {
    var codes: seq<string>

    ghost predicate Valid()
      reads this
    {
      forall i, j :: 0 <= i < j < |codes| ==> codes[i] != codes[j]
    }

    constructor ()
      ensures Valid() && codes == []
    {
      codes := [];
    }

    /** `isBookingReferenceExist`. */
    predicate IsBookingReferenceExist(code: string)
      reads this
    {
      code in codes
    }

    /** `saveBookingReferenceToDatabase`: its only caller stores a code found absent. */
    method SaveBookingReferenceToDatabase(code: string)
      requires Valid() && code !in codes
      modifies this
      ensures Valid()
      ensures codes == old(codes) + [code]
    {
      codes := codes + [code];
    }

    /** `generateBookingReference`: the do-while retry loop, cut off after `attempts` draws
        (none is a run of bad luck). A returned code is new, well formed and now stored, the
        store has grown by exactly it and every earlier code is where it was. Into an empty
        store the first draw is always new. */
    method GenerateBookingReference(attempts: nat) returns (r: Option<string>)
      requires Valid()
      modifies this
      ensures Valid()
      ensures r.Some? ==> WellFormedCode(r.value) && r.value !in old(codes) && codes == old(codes) + [r.value]
      ensures r.None? ==> codes == old(codes)
      ensures attempts > 0 && old(codes) == [] ==> r.Some?
    {
      var left := attempts;
      r := None;
      while left > 0
        invariant left <= attempts
        invariant codes == old(codes)
        invariant old(codes) == [] ==> left == attempts
        decreases left
      {
        var code := GenerateRandomAlphaNumericCode(CodeLength);
        if !IsBookingReferenceExist(code) {
          SaveBookingReferenceToDatabase(code);
          return Some(code);
        }
        left := left - 1;
      }
    }
  }
}
