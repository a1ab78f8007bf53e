/** The plugin-wide settings: the sequence that hands out shared build number ids. */
module Settings {

  class SettingsEntity {
    var buildNumberIdSequence: int

    /** A fresh settings object hands out id 1 first. */
    constructor ()
      ensures buildNumberIdSequence == 1
    {
      buildNumberIdSequence := 1;
    }

    /** Reads the next id without using it up. */
    method GetBuildNumberIdSequence() returns (next: int)
      ensures next == buildNumberIdSequence
    {
      next := buildNumberIdSequence;
    }

    method SetBuildNumberIdSequence(next: int)
      modifies this
      ensures buildNumberIdSequence == next
    {
      buildNumberIdSequence := next;
    }

    /** Hands out the next id and moves the sequence one further. */
    method GetAndIncrementBuildNumberIdSequence() returns (issued: int)
      modifies this
      ensures issued == old(buildNumberIdSequence)
      ensures buildNumberIdSequence == issued + 1
    {
      issued := buildNumberIdSequence;
      buildNumberIdSequence := buildNumberIdSequence + 1;
    }
  }
}
