/**
 * The one-shot hand-off of src/lib/fileTransfer.ts: one page leaves a file
 * in a module-level slot and the next page takes it. Taking the file empties
 * the slot, so a file is handed over at most once.
 */
module FileTransfer {
  import opened Wrappers
  import opened Media

  /** The module-level variable `sharedFile`; `None` is `null`. */
  class SharedFileSlot {
    var sharedFile: Option<File>

    /** Module initialisation: the slot starts out empty. */
    constructor()
      ensures sharedFile == None
    {
      sharedFile := None;
    }

    /** `setSharedFile(file)`: the slot holds `file`, whatever it held before. */
    method SetSharedFile(file: File)
      modifies this
      ensures sharedFile == Some(file)
    {
      sharedFile := Some(file);
    }

    /** `getSharedFile()`: returns what the slot held and leaves it empty. */
    method GetSharedFile() returns (f: Option<File>)
      modifies this
      ensures f == old(sharedFile)
      ensures sharedFile == None
    {
      f := sharedFile;
      sharedFile := None;
    }
  }

  /** Before any `setSharedFile`, `getSharedFile` returns `null`. */
  method GetBeforeAnySet() returns (f: Option<File>)
    ensures f == None
  {
    var slot := new SharedFileSlot();
    f := slot.GetSharedFile();
  }

  /** After `setSharedFile(file)` the next get returns `file`, and a second get returns `null`. */
  method SetThenGetTwice(file: File) returns (first: Option<File>, second: Option<File>)
    ensures first == Some(file)
    ensures second == None
  {
    var slot := new SharedFileSlot();
    slot.SetSharedFile(file);
    first := slot.GetSharedFile();
    second := slot.GetSharedFile();
  }

  /** A second `setSharedFile` before any get replaces the first: only the most recent file comes out. */
  method SetTwiceThenGet(older: File, newer: File) returns (f: Option<File>)
    ensures f == Some(newer)
  {
    var slot := new SharedFileSlot();
    slot.SetSharedFile(older);
    slot.SetSharedFile(newer);
    f := slot.GetSharedFile();
  }

  /** Whatever the slot holds, two consecutive gets never both return a file. */
  method GetTwice(slot: SharedFileSlot) returns (first: Option<File>, second: Option<File>)
    modifies slot
    ensures first == old(slot.sharedFile)
    ensures second == None
  {
    first := slot.GetSharedFile();
    second := slot.GetSharedFile();
  }
}
