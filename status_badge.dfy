/**
 * The status badge: the label shown for a record's status.  Known
 * statuses are recognised whatever their case and grouped under five
 * labels; any other status is shown as it is, and a missing or empty one
 * as `'Unknown'`.
 */
module StatusBadge {
  import opened Values

  const CompletedLabel := "Completed"
  const InProgressLabel := "In Progress"
  const PendingLabel := "Pending"
  const OverdueLabel := "Overdue"
  const NotStartedLabel := "Not Started"
  const UnknownLabel := "Unknown"

  /** The `switch` on the lowercased status: the label of a known status, nothing otherwise. */
  function KnownLabel(lowered: string): (r: Option<string>)
  {
    if lowered in {"completed", "done", "confirmed"} then Some(CompletedLabel)
    else if lowered in {"in progress", "in-progress", "active"} then Some(InProgressLabel)
    else if lowered in {"pending", "scheduled"} then Some(PendingLabel)
    else if lowered in {"overdue", "urgent"} then Some(OverdueLabel)
    else if lowered in {"not started", "not-started", "draft"} then Some(NotStartedLabel)
    else None
  }

  /**
   * The badge's label for a status that is text or missing (`None` for
   * `null` and `undefined`).
   */
  function Label(status: Option<string>): (r: string)
    ensures r != ""
    ensures status.None? || status.value == "" ==> r == UnknownLabel
    ensures status.Some? && KnownLabel(Lower(status.value)).Some? ==> r == KnownLabel(Lower(status.value)).value
    ensures status.Some? && status.value != "" && KnownLabel(Lower(status.value)).None? ==> r == status.value
  {
    if status.None? then UnknownLabel
    else
      match KnownLabel(Lower(status.value))
      case Some(known) => known
      case None => if status.value != "" then status.value else UnknownLabel
  }

  /** Case does not matter: two spellings of a known status get the same label. */
  lemma LabelIgnoresCase(a: string, b: string)
    requires Lower(a) == Lower(b) && KnownLabel(Lower(a)).Some?
    ensures Label(Some(a)) == Label(Some(b))
  {
  }

  // Each label's own text is a known status with that label, so an unknown
  // status shown as itself never reads as one of the five labels.

  lemma CompletedIsKnown()
    ensures KnownLabel(Lower(CompletedLabel)) == Some(CompletedLabel)
  {
    assert Lower(CompletedLabel) == "completed" by {
      LowerOf(CompletedLabel, "completed");
    }
    KnownAsCompleted("completed");
  }

  lemma InProgressIsKnown()
    ensures KnownLabel(Lower(InProgressLabel)) == Some(InProgressLabel)
  {
    assert Lower(InProgressLabel) == "in progress" by {
      LowerOf(InProgressLabel, "in progress");
    }
    KnownAsInProgress("in progress");
  }

  lemma PendingIsKnown()
    ensures KnownLabel(Lower(PendingLabel)) == Some(PendingLabel)
  {
    assert Lower(PendingLabel) == "pending" by {
      LowerOf(PendingLabel, "pending");
    }
    KnownAsPending("pending");
  }

  lemma OverdueIsKnown()
    ensures KnownLabel(Lower(OverdueLabel)) == Some(OverdueLabel)
  {
    assert Lower(OverdueLabel) == "overdue" by {
      LowerOf(OverdueLabel, "overdue");
    }
    KnownAsOverdue("overdue");
  }

  lemma NotStartedIsKnown()
    ensures KnownLabel(Lower(NotStartedLabel)) == Some(NotStartedLabel)
  {
    assert Lower(NotStartedLabel) == "not started" by {
      LowerOf(NotStartedLabel, "not started");
    }
    KnownAsNotStarted("not started");
  }

  /**
   * A status shows one of the five labels exactly when its lowercase is a
   * known status with that label: no other status borrows a label.
   */
  lemma ShownIffKnown(s: string, shown: string)
    requires shown != UnknownLabel && KnownLabel(Lower(shown)) == Some(shown)
    ensures Label(Some(s)) == shown <==> KnownLabel(Lower(s)) == Some(shown)
  {
  }

  /** A badge reads `'Completed'` exactly for `completed`, `done` and `confirmed`, in any case. */
  lemma CompletedIff(s: string)
    ensures Label(Some(s)) == CompletedLabel <==> Lower(s) in {"completed", "done", "confirmed"}
  {
    CompletedIsKnown();
    ShownIffKnown(s, CompletedLabel);
    KnownAsCompleted(Lower(s));
  }

  lemma KnownAsCompleted(lowered: string)
    ensures KnownLabel(lowered) == Some(CompletedLabel) <==> lowered in {"completed", "done", "confirmed"}
  {
  }

  /** A badge reads `'In Progress'` exactly for `in progress`, `in-progress` and `active`. */
  lemma InProgressIff(s: string)
    ensures Label(Some(s)) == InProgressLabel <==> Lower(s) in {"in progress", "in-progress", "active"}
  {
    InProgressIsKnown();
    ShownIffKnown(s, InProgressLabel);
    KnownAsInProgress(Lower(s));
  }

  lemma KnownAsInProgress(lowered: string)
    ensures KnownLabel(lowered) == Some(InProgressLabel) <==> lowered in {"in progress", "in-progress", "active"}
  {
  }

  /** A badge reads `'Pending'` exactly for `pending` and `scheduled`. */
  lemma PendingIff(s: string)
    ensures Label(Some(s)) == PendingLabel <==> Lower(s) in {"pending", "scheduled"}
  {
    PendingIsKnown();
    ShownIffKnown(s, PendingLabel);
    KnownAsPending(Lower(s));
  }

  lemma KnownAsPending(lowered: string)
    ensures KnownLabel(lowered) == Some(PendingLabel) <==> lowered in {"pending", "scheduled"}
  {
  }

  /** A badge reads `'Overdue'` exactly for `overdue` and `urgent`. */
  lemma OverdueIff(s: string)
    ensures Label(Some(s)) == OverdueLabel <==> Lower(s) in {"overdue", "urgent"}
  {
    OverdueIsKnown();
    ShownIffKnown(s, OverdueLabel);
    KnownAsOverdue(Lower(s));
  }

  lemma KnownAsOverdue(lowered: string)
    ensures KnownLabel(lowered) == Some(OverdueLabel) <==> lowered in {"overdue", "urgent"}
  {
  }

  /** A badge reads `'Not Started'` exactly for `not started`, `not-started` and `draft`. */
  lemma NotStartedIff(s: string)
    ensures Label(Some(s)) == NotStartedLabel <==> Lower(s) in {"not started", "not-started", "draft"}
  {
    NotStartedIsKnown();
    ShownIffKnown(s, NotStartedLabel);
    KnownAsNotStarted(Lower(s));
  }

  lemma KnownAsNotStarted(lowered: string)
    ensures KnownLabel(lowered) == Some(NotStartedLabel) <==> lowered in {"not started", "not-started", "draft"}
  {
  }

  /** A badge reads `'Unknown'` for a missing or empty status, and for the text `Unknown` itself. */
  lemma UnknownIff(status: Option<string>)
    ensures Label(status) == UnknownLabel <==> status.None? || status.value == "" || status.value == UnknownLabel
  {
    if status.Some? && status.value == UnknownLabel {
      LowerOf(UnknownLabel, "unknown");
    }
  }
}
