/**
 * The master checklist the trip planner starts from: its nine planning
 * periods with their tasks, the default (and reset) checklist built from
 * them, and the planner as it opens.
 */
module ChecklistDefaults {
  import opened Values
  import opened Checklist

  /** A task as the master checklist defines it; four periods give their tasks no category. */
  datatype Entry = Entry(id: string, title: string, category: Option<string>)

  datatype Section = Section(id: string, title: string, entries: seq<Entry>)

  const MasterChecklist: seq<Section> := [
    Section("period-1", "4 – 6 Months Before Travel – Foundation & Approvals", [
      Entry("task-1-1", "Decide which countries to visit", Some("destination-planning")),
      Entry("task-1-2", "Decide which key cities/places to visit in each country", Some("destination-planning")),
      Entry("task-1-3", "Decide the approximate travel period (often linked to events)", Some("destination-planning")),
      Entry("task-1-4", "Decide on the fundraising targets for each country and each event", Some("fundraising-strategy")),
      Entry("task-1-5", "List all events and key people to meet, per location", Some("fundraising-strategy")),
      Entry("task-1-6", "Finalise (or secure holds on) event dates and venues", Some("fundraising-strategy")),
      Entry("task-1-7", "Draft the high-level itinerary / travel plan", Some("destination-planning")),
      Entry("task-1-8", "Plan which stories, photos, videos you will need", Some("content-planning")),
      Entry("task-1-9", "Plan the full list of data / statistics you will need", Some("content-planning")),
      Entry("task-1-10", "Obtain letters of invitation for visa applications", Some("documentation")),
      Entry("task-1-11", "Arrange visas / visa waivers (including any transit visas)", Some("documentation")),
      Entry("task-1-12", "Check passport validity and any medical requirements", Some("documentation")),
      Entry("task-1-13", "Choose / set up a robust system to track pledges and interests", Some("content-planning"))
    ]),
    Section("period-2", "2 – 3 Months Before Travel – Bookings & First Outreach", [
      Entry("task-2-1", "Help ensure optimal numbers of event participants (early invitations & promotion)", Some("event-coordination")),
      Entry("task-2-2", "Reach out to every key person/group and place meetings on their calendars", Some("outreach-scheduling")),
      Entry("task-2-3", "Build the draft meetings / events schedule", Some("outreach-scheduling")),
      Entry("task-2-4", "Book flights, trains and other transport", Some("travel-bookings")),
      Entry("task-2-5", "Decide where to stay in each location and confirm lodging with supporters where possible", Some("travel-bookings")),
      Entry("task-2-6", "Book hotels / Airbnbs where needed", Some("travel-bookings")),
      Entry("task-2-7", "Begin the master list of event materials (presentations, statistics, hand-outs, one-pagers, posters, pledge sheets, QR codes)", Some("event-coordination")),
      Entry("task-2-8", "For every planned meeting, write the desired outcomes and work backwards on preparations", Some("outreach-scheduling")),
      Entry("task-2-9", "Open a file to keep track of expenses from this point forward", Some("administrative")),
      Entry("task-2-10", "Arrange or confirm travel / medical insurance", Some("administrative")),
      Entry("task-2-11", "Continue visa follow-up until all approvals are received", Some("administrative")),
      Entry("task-2-12", "Keep a running list of gift items required for events and personal visits", Some("event-coordination")),
      Entry("task-2-13", "Work with partners on the initial run-of-show for each event", Some("event-coordination")),
      Entry("task-2-14", "Implement the pledge-tracking system inside Little Green Light (or equivalent)", Some("administrative"))
    ]),
    Section("period-3", "1 Month Before Travel – Content & Confirmation", [
      Entry("task-3-1", "Confirm lodging with hosts; finalise any remaining hotel bookings", Some("travel-confirmation")),
      Entry("task-3-2", "Finalize the itinerary (travel legs, meetings and events)", Some("travel-confirmation")),
      Entry("task-3-3", "Build and refine presentations; integrate high-impact child/youth stories with fitted photos and videos", Some("content-creation")),
      Entry("task-3-4", "Gather all relevant statistics (child data) for meetings and slides", Some("content-creation")),
      Entry("task-3-5", "Assemble comprehensive talking points (programmes, new developments, needs, successes, financials, impact, collaborations, strategy)", Some("content-creation")),
      Entry("task-3-6", "Draft and polish concise soundbites / elevator pitch", Some("content-creation")),
      Entry("task-3-7", "Decide on detailed agendas for all official meetings (e.g., FOA boards)", Some("meeting-preparation")),
      Entry("task-3-8", "Create or finalise pledge sheets with sponsorship tiers", Some("fundraising-materials")),
      Entry("task-3-9", "Create and embed QR codes linking to donation pages and background materials", Some("fundraising-materials")),
      Entry("task-3-10", "Confirm that child videos align with each audience; line up any auction items and the auctioneer", Some("fundraising-materials")),
      Entry("task-3-11", "Finalise fundraising options/needs lists (varied programme elements and gift amounts)", Some("fundraising-materials")),
      Entry("task-3-12", "Purchase approved gift items, including special Tanzanian donor gifties", Some("meeting-preparation")),
      Entry("task-3-13", "Ensure credit cards work internationally and raise limits if required", Some("travel-confirmation"))
    ]),
    Section("period-4", "2 Weeks Before Travel – Materials & Reminders", [
      Entry("task-4-1", "Practise, practise, practise: event presentations, narratives and child stories", Some("presentation-prep")),
      Entry("task-4-2", "Practise key talking points", Some("presentation-prep")),
      Entry("task-4-3", "Send updates pack & agendas for FOA board meetings (≥ 10 days in advance)", Some("communications")),
      Entry("task-4-4", "Send calendar reminders / save-the-date nudges to all meeting contacts", Some("communications")),
      Entry("task-4-5", "Print and organise all materials: annual reports, impact stats sheets, brochures (≥ 200), business cards, pledge sheets, agendas", Some("materials-prep")),
      Entry("task-4-6", "Prepare hand-outs, one-pagers, posters and the background loop video/photo slideshow", Some("materials-prep")),
      Entry("task-4-7", "Ensure optimal A/V is booked or tested (including good sound)", Some("technical-setup")),
      Entry("task-4-8", "Confirm auction items are in hand and auctioneer briefed", Some("technical-setup")),
      Entry("task-4-9", "Confirm volunteers who will manage on-the-spot donations (Square, mobile pay, cheques)", Some("technical-setup")),
      Entry("task-4-10", "Finalise run-of-show documents and share with partners", Some("materials-prep")),
      Entry("task-4-11", "Re-check travel / medical insurance documentation", Some("documentation-check")),
      Entry("task-4-12", "Re-check visa / ESTA / eTA approvals and print copies", Some("documentation-check"))
    ]),
    Section("period-5", "Week Before Travel – Packing & Last Touches", [
      Entry("task-5-1", "Pack according to weather at all destinations, including spare HDMI cable, universal electrical plugs, Bluetooth presentation clicker, ≥ 200 brochures, business cards, printed materials, gift items", None),
      Entry("task-5-2", "Have small amounts of cash in required currencies", None),
      Entry("task-5-3", "Download offline city maps for each stop", None),
      Entry("task-5-4", "Arrange local phone / internet data plans or e-SIMs", None),
      Entry("task-5-5", "Reconfirm flights, trains, ground transport and accommodation check-in details", None),
      Entry("task-5-6", "Send personal touch-point emails to key people as a final reminder", None),
      Entry("task-5-7", "Double-check presentations, videos, pledge sheets, QR codes are on laptop and cloud", None),
      Entry("task-5-8", "Increase credit-card limit if still pending", None),
      Entry("task-5-9", "Conduct a final personal prep for each meeting: outcomes and approach", None)
    ]),
    Section("period-6", "During the Trip – Daily Discipline", [
      Entry("task-6-1", "Daily check-ins & self-evaluations; adjust the plan as needed", Some("daily-management")),
      Entry("task-6-2", "Before each meeting: refresh goals and talking points; ensure gift items and business cards are ready", Some("meeting-execution")),
      Entry("task-6-3", "Run events following the approved run-of-show; ensure A/V works and the background loop is playing", Some("event-execution")),
      Entry("task-6-4", "Use pledge sheets and QR codes; enable on-the-spot donations (Square, mobile, cheque) with volunteers", Some("fundraising-execution")),
      Entry("task-6-5", "Record donations and pledges immediately; update Little Green Light", Some("fundraising-execution")),
      Entry("task-6-6", "Take detailed notes after every meeting (learnings, follow-ups, opportunities)", Some("meeting-execution")),
      Entry("task-6-7", "Keep track of expenses daily (scan receipts)", Some("daily-management")),
      Entry("task-6-8", "Maintain daily updates of outcomes and pledges in the CRM", Some("fundraising-execution")),
      Entry("task-6-9", "Continue to distribute brochures, annual reports and visiting cards as appropriate", Some("event-execution"))
    ]),
    Section("period-7", "Within 2 Weeks After Each Meeting / Event", [
      Entry("task-7-1", "Send personalised thank-you emails within 4 days of every meeting", None),
      Entry("task-7-2", "Record donations and issue timely thank-yous", None),
      Entry("task-7-3", "Enter new donors or prospects into the follow-up pipeline", None),
      Entry("task-7-4", "Update pledges and outcomes in Little Green Light", None),
      Entry("task-7-5", "Submit expense items for reconciliation / reimbursement", None),
      Entry("task-7-6", "Conduct an internal debrief on what worked well and what could improve", None)
    ]),
    Section("period-8", "Within 1 Month After the Trip", [
      Entry("task-8-1", "Publish a detailed Trip Report to the Amani-TZ Board and Management Team", None),
      Entry("task-8-2", "Submit the full expense report and obtain reimbursements", None),
      Entry("task-8-3", "Finalize donation totals from each event (goal: within 6 weeks)", None),
      Entry("task-8-4", "Ensure pledge follow-up plans are in motion", None)
    ]),
    Section("period-9", "Within 2 Months After the Trip", [
      Entry("task-9-1", "Feed lessons learned into the next trip cycle", None),
      Entry("task-9-2", "Continue pledge follow-through until every commitment is honoured", None),
      Entry("task-9-3", "Verify the pledge-tracking system captured every interest accurately and update as required", None)
    ])
  ]

  /** The master checklist's shape: nine periods, `period-1` first, with 83 tasks between them. */
  lemma MasterShape()
    ensures |MasterChecklist| == 9
    ensures MasterChecklist[0].id == "period-1"
    ensures forall i | 1 <= i < 9 :: MasterChecklist[i].id != "period-1"
    ensures |MasterChecklist[0].entries| == 13 && |MasterChecklist[4].entries| == 9
  {
  }

  // ---------------------------------------------------------------------
  // Default and reset

  /**
   * The checklist the planner starts from and that "Reset All Tasks"
   * restores: every master period, expanded only for `period-1`, every
   * task of it not completed.
   */
  function DefaultChecklist(): (r: seq<Period>)
    ensures |r| == |MasterChecklist|
    ensures forall i | 0 <= i < |r| ::
      var m := MasterChecklist[i];
      r[i].id == m.id && r[i].title == m.title && (r[i].expanded <==> m.id == "period-1")
      && |r[i].tasks| == |m.entries|
      && forall j | 0 <= j < |m.entries| ::
           var t := r[i].tasks[j];
           t.id == m.entries[j].id && t.title == m.entries[j].title && t.category == m.entries[j].category
           && !t.completed && !t.custom
  {
    seq(|MasterChecklist|, i requires 0 <= i < |MasterChecklist| =>
      var m := MasterChecklist[i];
      Period(m.id, m.title, m.id == "period-1",
        seq(|m.entries|, j requires 0 <= j < |m.entries| =>
          Task(m.entries[j].id, m.entries[j].title, m.entries[j].category, false, false))))
  }

  /** In the default checklist exactly the first period is expanded and nothing is done. */
  lemma DefaultExpandsFirstOnly()
    ensures forall i | 0 <= i < |DefaultChecklist()| :: DefaultChecklist()[i].expanded <==> i == 0
    ensures forall i | 0 <= i < |DefaultChecklist()| :: CompletedCount(DefaultChecklist()[i].tasks) == 0
  {
    MasterShape();
    var d := DefaultChecklist();
    forall i | 0 <= i < |d| ensures CompletedCount(d[i].tasks) == 0 {
      NoneCompleted(d[i].tasks);
    }
  }

  /** The planner when it opens: the default checklist, nothing being edited. */
  function Open(): (r: Planner)
    ensures r.periods == DefaultChecklist() && r.editTaskId == None && r.editTaskTitle == ""
  {
    Planner(DefaultChecklist(), None, None, "")
  }
}
