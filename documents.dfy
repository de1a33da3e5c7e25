/**
 * The documents page: the search and category filters over the current
 * trip's documents, the category list, and the upload, which adds one
 * document per chosen file.
 *
 * The file contents themselves, their icons and their size display are not
 * part of this model; a file is its name, type and size.
 */
module DocumentsPage {
  import opened Values
  import opened Views
  import Store

  // ---------------------------------------------------------------------
  // Searching

  /**
   * The search box: the name, lowercased, contains the lowercased term,
   * or there is a text description and it does.  A record whose name is
   * not text never matches.
   */
  predicate Matches(doc: Record, term: string)
  {
    (Get(doc, "name").Str? && Includes(Lower(Get(doc, "name").s), Lower(term)))
    || (Get(doc, "description").Str? && Includes(Lower(Get(doc, "description").s), Lower(term)))
  }

  /** The category drop-down: `'all'` passes everything, any other value only that category. */
  predicate InCategory(doc: Record, category: string)
  {
    category == "all" || Get(doc, "category") == Str(category)
  }

  /** `filteredDocuments`: the trip's documents that match both the search and the category. */
  function FilteredDocuments(docs: seq<Record>, term: string, category: string): (r: seq<Record>)
    ensures |r| <= |docs|
    ensures forall x :: x in r <==> x in docs && Matches(x, term) && InCategory(x, category)
  {
    Filter(docs, (x: Record) => Matches(x, term) && InCategory(x, category))
  }

  /** The search ignores case: a term matches exactly when its lowercase does. */
  lemma SearchIgnoresCase(doc: Record, term: string)
    ensures Matches(doc, term) <==> Matches(doc, Lower(term))
  {
    LowerIdempotent(term);
  }

  /** A document whose name contains the term as typed is found, whatever the case of either. */
  lemma NameContainingTermMatches(doc: Record, term: string)
    requires Get(doc, "name").Str? && Includes(Get(doc, "name").s, term)
    ensures Matches(doc, term)
  {
    IncludesLower(Get(doc, "name").s, term);
  }

  /** With an empty search and every category, the page lists every document with a name. */
  lemma EmptySearchKeepsAll(docs: seq<Record>)
    requires forall i | 0 <= i < |docs| :: Get(docs[i], "name").Str?
    ensures FilteredDocuments(docs, "", "all") == docs
  {
    forall i | 0 <= i < |docs| ensures Matches(docs[i], "") {
      IncludesEmpty(Lower(Get(docs[i], "name").s));
    }
    FilterKeepsAll(docs, (x: Record) => Matches(x, "") && InCategory(x, "all"));
  }

  /** `categories`: each category of the trip's documents once, in order of first appearance. */
  function Categories(docs: seq<Record>): (r: seq<Value>)
    ensures forall c :: c in r <==> exists i | 0 <= i < |docs| :: Get(docs[i], "category") == c
    ensures forall i, j | 0 <= i < j < |r| :: r[i] != r[j]
  {
    var all := seq(|docs|, i requires 0 <= i < |docs| => Get(docs[i], "category"));
    assert forall c :: c in all <==> exists i | 0 <= i < |docs| :: Get(docs[i], "category") == c by {
      forall c | c in all ensures exists i | 0 <= i < |docs| :: Get(docs[i], "category") == c {
        var i :| 0 <= i < |all| && all[i] == c;
      }
      forall i | 0 <= i < |docs| ensures Get(docs[i], "category") in all {
        assert all[i] == Get(docs[i], "category");
      }
    }
    Dedup(all)
  }

  /** Every category the list offers selects at least one of the trip's documents. */
  lemma OfferedCategoriesAreUsed(docs: seq<Record>, c: string)
    requires forall i | 0 <= i < |docs| :: Get(docs[i], "name").Str?
    requires c != "all" && Str(c) in Categories(docs)
    ensures FilteredDocuments(docs, "", c) != []
  {
    var i :| 0 <= i < |docs| && Get(docs[i], "category") == Str(c);
    IncludesEmpty(Lower(Get(docs[i], "name").s));
    assert docs[i] in docs;
    assert docs[i] in FilteredDocuments(docs, "", c);
  }

  // ---------------------------------------------------------------------
  // Uploading

  /** A chosen file, as far as the page reads it. */
  datatype File = File(name: string, fileType: string, size: int)

  /** The upload modal: the chosen files, the category and the description. */
  datatype UploadForm = UploadForm(files: seq<File>, category: string, description: string)

  const EmptyUpload: UploadForm := UploadForm([], "", "")

  /** The category an upload files under: the one typed in, or `'General'` when none was. */
  function CategoryOf(form: UploadForm): (r: string)
    ensures r != ""
    ensures form.category != "" ==> r == form.category
  {
    if form.category != "" then form.category else "General"
  }

  /** What the modal passes up for one file. */
  function DocumentData(file: File, form: UploadForm): Record
  {
    map["name" := Str(file.name), "type" := Str(file.fileType), "size" := Num(file.size),
        "category" := Str(CategoryOf(form)), "description" := Str(form.description)]
  }

  /** `handleUpload`: the file's data with the trip's id, version 1 and the page's own time. */
  function Uploaded(data: Record, tripId: Value, stamp: Value): (r: Record)
    ensures r.Keys == data.Keys + {"tripId", "version", "createdAt"}
    ensures Get(r, "tripId") == tripId && Get(r, "version") == Num(1) && Get(r, "createdAt") == stamp
    ensures forall k | k in data && k != "tripId" && k != "version" && k != "createdAt" :: r[k] == data[k]
  {
    data + map["tripId" := tripId, "version" := Num(1), "createdAt" := stamp]
  }

  /**
   * The document stored for the i-th file: the page's record stamped by
   * the store with the i-th identifier and creation time.
   */
  function NewDocument(file: File, form: UploadForm, tripId: Value, id: Value, stamp: Value, now: Value): Record
  {
    Store.Stamp(Uploaded(DocumentData(file, form), tripId, stamp), id, now)
  }

  /** The documents an upload stores, one per file in the order chosen. */
  function NewDocuments(form: UploadForm, tripId: Value, ids: nat -> Value, stamps: nat -> Value, clock: nat -> Value)
    : (r: seq<Record>)
    ensures |r| == |form.files|
  {
    seq(|form.files|, i requires 0 <= i < |form.files| => NewDocument(form.files[i], form, tripId, ids(i), stamps(i), clock(i)))
  }

  /**
   * Each stored document carries its file's name, type and size, the
   * category (`'General'` when none was typed), the description, the
   * trip's id, version 1 and its own identifier.  The store's creation
   * time replaces the one the page set.
   */
  lemma NewDocumentFields(form: UploadForm, tripId: Value, ids: nat -> Value, stamps: nat -> Value, clock: nat -> Value, i: int)
    requires 0 <= i < |form.files|
    ensures var d := NewDocuments(form, tripId, ids, stamps, clock)[i];
      Get(d, "name") == Str(form.files[i].name) && Get(d, "type") == Str(form.files[i].fileType)
      && Get(d, "size") == Num(form.files[i].size)
      && Get(d, "category") == Str(if form.category == "" then "General" else form.category)
      && Get(d, "description") == Str(form.description)
      && Get(d, "tripId") == tripId && Get(d, "version") == Num(1)
      && Get(d, "id") == ids(i) && Get(d, "createdAt") == clock(i)
  {
    var data := DocumentData(form.files[i], form);
    var page := Uploaded(data, tripId, stamps(i));
    assert page["name"] == Str(form.files[i].name) && page["type"] == Str(form.files[i].fileType);
    assert page["size"] == Num(form.files[i].size) && page["category"] == Str(CategoryOf(form));
    assert page["description"] == Str(form.description);
  }

  /**
   * `UploadModal.handleSubmit` with `handleUpload`: with no file chosen
   * nothing happens; otherwise each file in turn is added to the store
   * and the modal is cleared.  Only the document list changes.
   */
  method Upload(s: Store.State, form: UploadForm, ids: nat -> Value, stamps: nat -> Value, clock: nat -> Value)
    returns (r: Store.State, after: UploadForm)
    ensures form.files == [] ==> r == s && after == form
    ensures form.files != [] ==> after == EmptyUpload
    ensures r == s.(documents := s.documents + NewDocuments(form, Store.SelectedId(s.currentTrip), ids, stamps, clock))
  {
    ghost var added := NewDocuments(form, Store.SelectedId(s.currentTrip), ids, stamps, clock);
    if |form.files| == 0 {
      assert added == [];
      return s, form;
    }
    var tripId := Store.SelectedId(s.currentTrip);
    r := s;
    for i := 0 to |form.files|
      invariant r == s.(documents := s.documents + added[..i])
    {
      var data := Uploaded(DocumentData(form.files[i], form), tripId, stamps(i));
      assert added[i] == Store.Stamp(data, ids(i), clock(i));
      Store.AddDocumentExtends(s, added, i, data, ids(i), clock(i));
      r := Store.Reduce(r, Store.AddDocument(data), ids(i), clock(i));
    }
    assert added[..|form.files|] == added;
    after := EmptyUpload;
  }

  /** Every uploaded document shows on the trip's page, after the ones it already had. */
  lemma UploadedAreListed(s: Store.State, form: UploadForm, ids: nat -> Value, stamps: nat -> Value, clock: nat -> Value)
    requires s.currentTrip.Some? && Get(s.currentTrip.value, "id").Str?
    ensures var tripId := Store.SelectedId(s.currentTrip);
      var added := NewDocuments(form, tripId, ids, stamps, clock);
      OfCurrentTrip(s.documents + added, s.currentTrip) == OfCurrentTrip(s.documents, s.currentTrip) + added
  {
    var tripId := Store.SelectedId(s.currentTrip);
    var added := NewDocuments(form, tripId, ids, stamps, clock);
    forall i | 0 <= i < |added| ensures StrictEquals(Get(added[i], "tripId"), tripId) {
      NewDocumentFields(form, tripId, ids, stamps, clock, i);
    }
    ForTripConcat(s.documents, added, tripId);
    ForTripKeepsAll(added, tripId);
  }

  /** After an upload of at least one file, its category is among those the page offers. */
  lemma UploadedCategoryOffered(s: Store.State, form: UploadForm, ids: nat -> Value, stamps: nat -> Value, clock: nat -> Value)
    requires s.currentTrip.Some? && Get(s.currentTrip.value, "id").Str?
    requires form.files != []
    ensures var added := NewDocuments(form, Store.SelectedId(s.currentTrip), ids, stamps, clock);
      Str(CategoryOf(form)) in Categories(OfCurrentTrip(s.documents + added, s.currentTrip))
  {
    var tripId := Store.SelectedId(s.currentTrip);
    var added := NewDocuments(form, tripId, ids, stamps, clock);
    UploadedAreListed(s, form, ids, stamps, clock);
    NewDocumentFields(form, tripId, ids, stamps, clock, 0);
    var listed := OfCurrentTrip(s.documents + added, s.currentTrip);
    var k := |OfCurrentTrip(s.documents, s.currentTrip)|;
    assert listed[k] == added[0];
    assert Get(listed[k], "category") == Str(CategoryOf(form));
  }

  /** `handleDelete`: the confirmed branch only shows a message. */
  function Delete(id: Value): Option<Store.Action>
  {
    None
  }

  /** Deleting a document leaves the store exactly as it was. */
  lemma DeleteKeepsStore(s: Store.State, id: Value, freshId: Value, now: Value)
    ensures Store.Dispatch(s, Delete(id), freshId, now) == s
  {
  }
}
