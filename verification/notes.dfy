/**
 A song note: a MIDI note number and a duration in 1/64ths of a second.
 */
module Notes {
  import opened Bytes

  datatype Note = Note(number: byte, duration: byte) {

    /** A note is playable when its number is a MIDI note the robot knows,
        31 through 127 inclusive; the duration plays no part. */
    predicate Valid(): (ok: bool)
      ensures ok <==> 31 <= number <= 127
    {
      number > 30 && number < 128
    }
  }

  /** The edges of the valid range: 30 and 128 are rejected, 31 and 127
      accepted, whatever the duration. */
  lemma ValidBoundaries(d: byte)
    ensures !Note(30, d).Valid() && Note(31, d).Valid()
    ensures Note(127, d).Valid() && !Note(128, d).Valid()
  {
  }

  /** Changing only the duration never changes validity. */
  lemma ValidIgnoresDuration(n: Note, d: byte)
    ensures n.(duration := d).Valid() <==> n.Valid()
  {
  }
}
