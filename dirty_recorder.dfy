/**
 * What the containers need from their parent document: a way to report
 * that a top-level field changed (`parent._mark_field_dirty(field_path)`),
 * and the errors a container operation can raise.
 */
module DirtyRecording {
  import opened FirestoreConstraints

  /** The exceptions a container operation can raise. */
  datatype ProxyError =
    | Constraint(e: ConstraintError)
    | KeyError
    | IndexError
    | ValueError
    | TypeError

  /**
   * The parent a container reports to. Its only observable effect is the
   * log of field paths reported, oldest first.
   */
  class DirtyRecorder {
    var reported: seq<string>

    constructor ()
      ensures reported == []
    {
      reported := [];
    }

    /** `parent._mark_field_dirty(field_path)`: records one report. */
    method MarkFieldDirty(fieldPath: string)
      modifies this
      ensures reported == old(reported) + [fieldPath]
    {
      reported := reported + [fieldPath];
    }
  }
}
