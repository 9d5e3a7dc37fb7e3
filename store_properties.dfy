/** What the store's operations promise, proved about the functions of `StoreModel`. */
module StoreProperties {
  import opened Optional
  import opened Seqs
  import opened Schema
  import opened StoreModel

  /** The keys of the lost reports that name document `documentId`. */
  ghost function ReportsOn(s: Store, documentId: int): set<int> {
    set k | k in s.lostDocuments && s.lostDocuments[k].documentId == documentId
  }

  /** Some lost report names document `documentId`. */
  ghost predicate HasReport(s: Store, documentId: int) {
    exists k :: k in s.lostDocuments && s.lostDocuments[k].documentId == documentId
  }

  /** No document carries two lost reports. */
  ghost predicate OneReportPerDocument(s: Store) {
    forall k1, k2 :: (k1 in s.lostDocuments && k2 in s.lostDocuments
                      && s.lostDocuments[k1].documentId == s.lostDocuments[k2].documentId) ==> k1 == k2
  }

  /** Every document whose status is "lost" has a lost report. */
  ghost predicate LostMeansReported(s: Store) {
    forall k :: k in s.documents && s.documents[k].status == "lost" ==> HasReport(s, k)
  }

  /** `getLostDocumentByDocumentId` finds a report exactly when one names the document. */
  lemma ReportForIffHasReport(s: Store, documentId: int)
    requires Valid(s)
    ensures ReportFor(s.lostDocuments, s.lostDocumentId, documentId).Some? <==> HasReport(s, documentId)
  {
    var r := ReportFor(s.lostDocuments, s.lostDocumentId, documentId);
    if r.Some? {
      var k :| k in s.lostDocuments && s.lostDocuments[k] == r.value;
    }
    if HasReport(s, documentId) {
      var k :| k in s.lostDocuments && s.lostDocuments[k].documentId == documentId;
      ReportListed(s.lostDocuments, s.lostDocumentId, k);
    }
  }

  // ---------------------------------------------------------------------------------------
  // Ids

  /** The store starts empty with every counter at 1, so the first id of every entity is 1. */
  lemma FirstIdsAreOne(ins: InsertUser, doc: InsertDocument, now: int)
    ensures CreateUser(Empty, ins).1.id == 1
    ensures CreateDocument(Empty, doc, now).1.id == 1
  {
  }

  /** Two successive creations get strictly increasing ids, and neither was in use. */
  lemma {:induction false} UserIdsIncrease(s: Store, a: InsertUser, b: InsertUser)
    requires Valid(s)
    ensures var (s1, u1) := CreateUser(s, a);
            var (s2, u2) := CreateUser(s1, b);
            u1.id < u2.id && u1.id !in s.users && u2.id !in s1.users && u2.id == u1.id + 1
  {
  }

  /** `initializeDemoData` on the fresh store leaves user 1 ("demo", 25 points) and document 1
      (an "ID Card" owned by user 1, status "active") and nothing else. */
  lemma DemoData(now: int)
    ensures var s := InitializeDemoData(Empty, now);
            && s.users.Keys == {1} && s.users[1].username == "demo" && s.users[1].points == 25
            && s.documents.Keys == {1} && s.documents[1].userId == 1 && s.documents[1].status == "active"
            && s.documents[1].kind == "ID Card"
            && s.lostDocuments == map[] && s.foundDocuments == map[]
            && s.conversations == map[] && s.messages == map[]
            && s.userId == 2 && s.documentId == 2 && s.lostDocumentId == 1
  {
    var (s1, u) := CreateUser(Empty, DemoUser);
    var (s2, d) := CreateDocument(s1, DemoIdCard, now);
    assert s1.users == map[1 := u];
    assert s2.documents == map[1 := d];
  }

  // ---------------------------------------------------------------------------------------
  // Users

  /** `updateUser` on a known id changes only the fields the patch names, and `updatedAt`. */
  lemma UpdateUserKeepsUnpatchedFields(s: Store, id: int, data: UserPatch, now: int)
    requires Valid(s) && id in s.users
    ensures var r := UpdateUser(s, id, data, now);
            var u := s.users[id];
            r.Ok? && var u' := r.value.1;
            && u'.id == id && u'.updatedAt == Some(now)
            && (data.username.Keep? ==> u'.username == u.username)
            && (data.password.Keep? ==> u'.password == u.password)
            && (data.email.Keep? ==> u'.email == u.email)
            && (data.phoneNumber.Keep? ==> u'.phoneNumber == u.phoneNumber)
            && (data.points.Keep? ==> u'.points == u.points)
            && (data.subscriptionPlan.Keep? ==> u'.subscriptionPlan == u.subscriptionPlan)
            && (data.subscriptionEndDate.Keep? ==> u'.subscriptionEndDate == u.subscriptionEndDate)
            && (data.createdAt.Keep? ==> u'.createdAt == u.createdAt)
            && (data == NoUserChange ==> u' == u.(updatedAt := Some(now)))
            && r.value.0.users.Keys == s.users.Keys
            && forall k :: k in s.users && k != id ==> r.value.0.users[k] == s.users[k]
  {
  }

  /** The username lookup returns the oldest user with that name. */
  lemma UsernameLookupFindsOldest(s: Store, username: string)
    requires Valid(s)
    ensures var r := GetUserByUsername(s, username);
            r.Some? ==> forall k :: k in s.users && k < r.value.id ==> s.users[k].username != username
  {
    var ks := KeysIn(s.users, 1, s.userId);
    var l := Listed(s.users, s.userId);
    var p := (u: User) => u.username == username;
    var i := FindIndex(l, p);
    if i.Some? {
      assert GetUserByUsername(s, username) == Some(l[i.value]);
      assert l[i.value].id == ks[i.value];
      forall k | k in s.users && k < ks[i.value] ensures s.users[k].username != username {
        var j :| 0 <= j < |ks| && ks[j] == k;
        assert j < i.value;
        assert !p(l[j]);
      }
    }
  }

  /** Conversely, the user with the smallest id among those with the name is the one found. */
  lemma UsernameLookupReturnsOldest(s: Store, username: string, k: int)
    requires Valid(s) && k in s.users && s.users[k].username == username
    requires forall j :: j in s.users && j < k ==> s.users[j].username != username
    ensures GetUserByUsername(s, username) == Some(s.users[k])
  {
    var ks := KeysIn(s.users, 1, s.userId);
    var l := Listed(s.users, s.userId);
    var p := (u: User) => u.username == username;
    var i :| 0 <= i < |ks| && ks[i] == k;
    forall j | 0 <= j < i ensures !p(l[j]) {
      assert ks[j] < k && ks[j] in s.users;
    }
    FindIsFirst(l, p, i);
  }

  // ---------------------------------------------------------------------------------------
  // Documents and lost reports

  /** `updateDocument` on an unknown id returns undefined and changes nothing. */
  lemma UpdateUnknownDocument(s: Store, id: int, data: DocumentPatch, now: int)
    requires Valid(s) && id !in s.documents
    ensures UpdateDocument(s, id, data, now) == (s, None)
  {
  }

  /** The store once `createLostDocument` has stored report `ins`, before it marks the document. */
  ghost function Filed(s: Store, ins: InsertLostDocument): Store {
    s.(lostDocuments := s.lostDocuments[s.lostDocumentId := NewLostDocument(ins, s.lostDocumentId)],
       lostDocumentId := s.lostDocumentId + 1)
  }

  /** The store once the reported document, when present, has been merged with `MarkLostPatch`. */
  ghost function MarkedLost(t: Store, ins: InsertLostDocument, now: int): Store {
    if ins.documentId in t.documents then
      t.(documents := t.documents[ins.documentId := MergeDocument(t.documents[ins.documentId], MarkLostPatch(ins), now)])
    else t
  }

  /** When the document already has a report, or the patch does not set status "lost",
      `updateDocument` only replaces that one document. */
  lemma UpdateWithoutFiling(s: Store, id: int, data: DocumentPatch, now: int)
    requires Valid(s) && id in s.documents
    requires data.status != Set("lost") || HasReport(s, id)
    ensures UpdateDocument(s, id, data, now)
            == (s.(documents := s.documents[id := MergeDocument(s.documents[id], data, now)]),
                Some(MergeDocument(s.documents[id], data, now)))
  {
    ReportForIffHasReport(s, id);
  }

  /** `createLostDocument` is "store the report, then mark the document": the nested
      `updateDocument` finds the new report and files no other. */
  lemma CreateLostDocumentSteps(s: Store, ins: InsertLostDocument, now: int)
    requires Valid(s)
    ensures Valid(Filed(s, ins))
    ensures CreateLostDocument(s, ins, now)
            == (MarkedLost(Filed(s, ins), ins, now), GetLostDocument(MarkedLost(Filed(s, ins), ins, now), s.lostDocumentId))
  {
    var s1 := Filed(s, ins);
    if ins.documentId in s1.documents {
      assert s1.lostDocuments[s.lostDocumentId].documentId == ins.documentId;
      UpdateWithoutFiling(s1, ins.documentId, MarkLostPatch(ins), now);
    }
  }

  /** Marking a document without reports lost files exactly one report: it is the document's
      owner's, its location defaults to "" and its description to "<name> was reported lost.".
      The stored document ends "lost" at `now` with that location, the returned document is
      the one merged before the nested update, and nothing else in the store changes. */
  lemma MarkLostFilesOneReport(s: Store, id: int, data: DocumentPatch, now: int)
    requires Valid(s) && id in s.documents && data.status == Set("lost") && !HasReport(s, id)
    ensures var (s', d) := UpdateDocument(s, id, data, now);
            var doc := s.documents[id];
            var k := s.lostDocumentId;
            var location := OrElse(PatchText(data.lostLocation), "");
            var report := LostDocument(k, id, doc.userId, now, Some(location),
                                       OrElse(PatchText(data.description), doc.name + " was reported lost."));
            var marked := MergeDocument(doc, data, now).(lostAt := Some(now), lostLocation := Some(location));
            && s' == s.(documents := s.documents[id := marked],
                        lostDocuments := s.lostDocuments[k := report], lostDocumentId := k + 1)
            && marked.status == "lost"
            && d == Some(MergeDocument(doc, data, now))
  {
    var doc := s.documents[id];
    var s1 := s.(documents := s.documents[id := MergeDocument(doc, data, now)]);
    var ins := ReportOnMarkLost(id, doc, data, now);
    MarkLostFiles(s, id, data, now);
    CreateLostDocumentSteps(s1, ins, now);
    MarkLostState(s, id, data, now);
  }

  /** The store `createLostDocument` leaves when called from `updateDocument`, worked out. */
  lemma MarkLostState(s: Store, id: int, data: DocumentPatch, now: int)
    requires Valid(s) && id in s.documents && data.status == Set("lost")
    ensures var doc := s.documents[id];
            var s1 := s.(documents := s.documents[id := MergeDocument(doc, data, now)]);
            var ins := ReportOnMarkLost(id, doc, data, now);
            var k := s.lostDocumentId;
            var location := OrElse(PatchText(data.lostLocation), "");
            var report := LostDocument(k, id, doc.userId, now, Some(location),
                                       OrElse(PatchText(data.description), doc.name + " was reported lost."));
            var marked := MergeDocument(doc, data, now).(lostAt := Some(now), lostLocation := Some(location));
            MarkedLost(Filed(s1, ins), ins, now)
            == s.(documents := s.documents[id := marked],
                  lostDocuments := s.lostDocuments[k := report], lostDocumentId := k + 1)
  {
    var doc := s.documents[id];
    var updated := MergeDocument(doc, data, now);
    var s1 := s.(documents := s.documents[id := updated]);
    var ins := ReportOnMarkLost(id, doc, data, now);
    MarkLostMerge(updated, ins, now);
    var marked := MergeDocument(updated, MarkLostPatch(ins), now);
    var s2 := Filed(s1, ins);
    assert MarkedLost(s2, ins, now) == s2.(documents := s2.documents[id := marked]);
    assert s2.documents[id := marked] == s.documents[id := marked];
    assert NewLostDocument(ins, s.lostDocumentId)
           == LostDocument(s.lostDocumentId, id, doc.userId, now, Some(OrElse(PatchText(data.lostLocation), "")),
                           OrElse(PatchText(data.description), doc.name + " was reported lost."));
  }

  /** Marking a document without reports lost hands the merged store to `createLostDocument`. */
  lemma MarkLostFiles(s: Store, id: int, data: DocumentPatch, now: int)
    requires Valid(s) && id in s.documents && data.status == Set("lost") && !HasReport(s, id)
    ensures var s1 := s.(documents := s.documents[id := MergeDocument(s.documents[id], data, now)]);
            Valid(s1) &&
            UpdateDocument(s, id, data, now)
            == (CreateLostDocument(s1, ReportOnMarkLost(id, s.documents[id], data, now), now).0,
                Some(MergeDocument(s.documents[id], data, now)))
  {
    ReportForIffHasReport(s, id);
  }

  /** Merging `MarkLostPatch` sets exactly the status, the time and the place of the loss. */
  lemma MarkLostMerge(d: Document, ins: InsertLostDocument, now: int)
    requires d.updatedAt == Some(now)
    ensures MergeDocument(d, MarkLostPatch(ins), now)
            == d.(status := "lost", lostAt := Some(ins.lostAt), lostLocation := ins.lostLocation)
  {
  }

  /** The report filed by marking a document lost is its only one, and the report map grows by one. */
  lemma MarkLostOnlyReport(s: Store, id: int, data: DocumentPatch, now: int)
    requires Valid(s) && id in s.documents && data.status == Set("lost") && !HasReport(s, id)
    ensures var s' := UpdateDocument(s, id, data, now).0;
            && ReportsOn(s', id) == {s.lostDocumentId}
            && |s'.lostDocuments| == |s.lostDocuments| + 1
            && s'.documents[id].status == "lost" && s'.documents[id].lostAt == Some(now)
  {
    MarkLostFilesOneReport(s, id, data, now);
    var s' := UpdateDocument(s, id, data, now).0;
    forall j | j in ReportsOn(s', id) ensures j == s.lostDocumentId {
      if j != s.lostDocumentId {
        assert false;
      }
    }
  }

  /** What `createLostDocument` with report `ins` promises when it turns `s` into `s'` and
      returns `v`: exactly one report is added, with the next id, whether or not the document
      already had one. An existing document ends "lost" with the report's time and location;
      for a missing document nothing else changes and the result is absent. The result is
      the joined report exactly when the document and the reporter exist. */
  ghost predicate FilesOneReport(s: Store, ins: InsertLostDocument, now: int, s': Store, v: Option<LostDocumentView>) {
    var k := s.lostDocumentId;
    var id := ins.documentId;
    && s'.lostDocuments == s.lostDocuments[k := NewLostDocument(ins, k)]
    && |s'.lostDocuments| == |s.lostDocuments| + 1
    && s'.lostDocumentId == k + 1
    && ReportsOn(s', id) == ReportsOn(s, id) + {k}
    && (id in s.documents ==>
          && s'.documents == s.documents[id := MergeDocument(s.documents[id], MarkLostPatch(ins), now)]
          && s'.documents[id].status == "lost"
          && s'.documents[id].lostAt == Some(ins.lostAt)
          && s'.documents[id].lostLocation == ins.lostLocation)
    && (id !in s.documents ==> s'.documents == s.documents && v == None)
    && (v.Some? <==> id in s.documents && ins.userId in s.users)
    && (v.Some? ==> id in s'.documents && v.value == LostDocumentView(NewLostDocument(ins, k), s'.documents[id], s.users[ins.userId]))
    && s'.users == s.users && s'.foundDocuments == s.foundDocuments
    && s'.conversations == s.conversations && s'.messages == s.messages
    && s'.documentId == s.documentId
  }

  lemma FiledReportFacts(s: Store, ins: InsertLostDocument, now: int)
    requires Valid(s)
    ensures var t := MarkedLost(Filed(s, ins), ins, now);
            FilesOneReport(s, ins, now, t, GetLostDocument(t, s.lostDocumentId))
  {
    var k := s.lostDocumentId;
    var id := ins.documentId;
    var t := MarkedLost(Filed(s, ins), ins, now);
    assert ReportsOn(t, id) == ReportsOn(s, id) + {k} by {
      forall j | j in ReportsOn(t, id) ensures j in ReportsOn(s, id) + {k} {
        if j != k { assert j in s.lostDocuments; }
      }
      forall j | j in ReportsOn(s, id) + {k} ensures j in ReportsOn(t, id) {
        if j != k { assert j in s.lostDocuments; }
      }
    }
  }

  /** `createLostDocument` keeps the promise `FilesOneReport` states. */
  lemma CreateLostDocumentAddsOne(s: Store, ins: InsertLostDocument, now: int)
    requires Valid(s)
    ensures var (s', v) := CreateLostDocument(s, ins, now);
            FilesOneReport(s, ins, now, s', v)
  {
    CreateLostDocumentSteps(s, ins, now);
    FiledReportFacts(s, ins, now);
  }

  /** `updateDocument` never gives a document a second report. */
  lemma UpdateKeepsOneReportPerDocument(s: Store, id: int, data: DocumentPatch, now: int)
    requires Valid(s) && OneReportPerDocument(s)
    ensures OneReportPerDocument(UpdateDocument(s, id, data, now).0)
  {
    if id in s.documents {
      if data.status == Set("lost") && !HasReport(s, id) {
        MarkLostFilesOneReport(s, id, data, now);
        var s' := UpdateDocument(s, id, data, now).0;
        NewReportKeepsOne(s, s', s'.lostDocuments[s.lostDocumentId]);
      } else {
        UpdateWithoutFiling(s, id, data, now);
      }
    }
  }

  /** Adding a report with a fresh key on a document that had none keeps one report per document. */
  lemma NewReportKeepsOne(s: Store, s': Store, l: LostDocument)
    requires OneReportPerDocument(s) && s.lostDocumentId !in s.lostDocuments && !HasReport(s, l.documentId)
    requires s'.lostDocuments == s.lostDocuments[s.lostDocumentId := l]
    ensures OneReportPerDocument(s')
  {
    var k := s.lostDocumentId;
    forall k1, k2 | k1 in s'.lostDocuments && k2 in s'.lostDocuments
      && s'.lostDocuments[k1].documentId == s'.lostDocuments[k2].documentId
      ensures k1 == k2
    {
      if k1 != k2 && (k1 == k || k2 == k) {
        assert false;
      }
    }
  }

  /** Filing a report keeps one report per document exactly when the document had none. */
  lemma OneReportAfterFiling(s: Store, ins: InsertLostDocument, now: int, s': Store, v: Option<LostDocumentView>)
    requires Valid(s) && OneReportPerDocument(s) && FilesOneReport(s, ins, now, s', v)
    ensures OneReportPerDocument(s') <==> !HasReport(s, ins.documentId)
  {
    var k := s.lostDocumentId;
    if HasReport(s, ins.documentId) {
      var j :| j in s.lostDocuments && s.lostDocuments[j].documentId == ins.documentId;
      assert j in s'.lostDocuments && k in s'.lostDocuments && j != k;
      assert s'.lostDocuments[j].documentId == s'.lostDocuments[k].documentId;
    } else {
      NewReportKeepsOne(s, s', NewLostDocument(ins, k));
    }
  }

  /** `createLostDocument` keeps one report per document exactly when the document had none:
      it does not look for an existing report, so a second call files a duplicate. */
  lemma CreateLostKeepsOneReportIff(s: Store, ins: InsertLostDocument, now: int)
    requires Valid(s) && OneReportPerDocument(s)
    ensures OneReportPerDocument(CreateLostDocument(s, ins, now).0) <==> !HasReport(s, ins.documentId)
  {
    CreateLostDocumentAddsOne(s, ins, now);
    var (s', v) := CreateLostDocument(s, ins, now);
    OneReportAfterFiling(s, ins, now, s', v);
  }

  /** Reports are never removed, so a document that has one keeps it. */
  lemma HasReportGrows(s: Store, s': Store, id: int)
    requires forall k :: k in s.lostDocuments ==> k in s'.lostDocuments && s'.lostDocuments[k] == s.lostDocuments[k]
    ensures HasReport(s, id) ==> HasReport(s', id)
  {
    if HasReport(s, id) {
      var j :| j in s.lostDocuments && s.lostDocuments[j].documentId == id;
      assert s'.lostDocuments[j] == s.lostDocuments[j];
    }
  }

  /** Marking a document lost through `updateDocument` keeps "every lost document has a report". */
  lemma LostReportedAfterMarking(s: Store, id: int, data: DocumentPatch, now: int, s': Store)
    requires Valid(s) && LostMeansReported(s) && id in s.documents
    requires s'.documents.Keys == s.documents.Keys
    requires forall j :: j in s.documents && j != id ==> s'.documents[j] == s.documents[j]
    requires s'.documents[id].status == MergeDocument(s.documents[id], data, now).status
    requires forall k :: k in s.lostDocuments ==> k in s'.lostDocuments && s'.lostDocuments[k] == s.lostDocuments[k]
    requires data.status == Set("lost") ==> HasReport(s', id)
    ensures LostMeansReported(s')
  {
    forall j | j in s'.documents && s'.documents[j].status == "lost" ensures HasReport(s', j) {
      HasReportGrows(s, s', j);
      if j != id || data.status.Keep? {
        assert s.documents[j].status == "lost";
      }
    }
  }

  lemma MarkedHasReport(s: Store, s': Store, id: int)
    requires s.lostDocumentId in s'.lostDocuments && s'.lostDocuments[s.lostDocumentId].documentId == id
    ensures HasReport(s', id)
  {
  }

  /** `updateDocument` keeps "every lost document has a report". */
  lemma UpdateKeepsLostReported(s: Store, id: int, data: DocumentPatch, now: int)
    requires Valid(s) && LostMeansReported(s)
    ensures LostMeansReported(UpdateDocument(s, id, data, now).0)
  {
    if id in s.documents {
      if data.status == Set("lost") && !HasReport(s, id) {
        FilingKeepsLostReported(s, id, data, now);
      } else {
        NoFilingKeepsLostReported(s, id, data, now);
      }
    }
  }

  lemma FilingKeepsLostReported(s: Store, id: int, data: DocumentPatch, now: int)
    requires Valid(s) && LostMeansReported(s) && id in s.documents
    requires data.status == Set("lost") && !HasReport(s, id)
    ensures LostMeansReported(UpdateDocument(s, id, data, now).0)
  {
    MarkLostFilesOneReport(s, id, data, now);
    var s' := UpdateDocument(s, id, data, now).0;
    MarkedHasReport(s, s', id);
    LostReportedAfterMarking(s, id, data, now, s');
  }

  lemma NoFilingKeepsLostReported(s: Store, id: int, data: DocumentPatch, now: int)
    requires Valid(s) && LostMeansReported(s) && id in s.documents
    requires data.status != Set("lost") || HasReport(s, id)
    ensures LostMeansReported(UpdateDocument(s, id, data, now).0)
  {
    UpdateWithoutFiling(s, id, data, now);
    var s' := UpdateDocument(s, id, data, now).0;
    HasReportGrows(s, s', id);
    LostReportedAfterMarking(s, id, data, now, s');
  }

  /** Filing a report on a document gives it a report; every other lost document that had a
      report keeps it. */
  lemma LostReportedAfterFiling(s: Store, ins: InsertLostDocument, now: int, s': Store, v: Option<LostDocumentView>)
    requires Valid(s) && FilesOneReport(s, ins, now, s', v)
    requires forall j :: j in s.documents && j != ins.documentId && s.documents[j].status == "lost" ==> HasReport(s, j)
    ensures LostMeansReported(s')
  {
    forall j | j in s'.documents && s'.documents[j].status == "lost" ensures HasReport(s', j) {
      if j == ins.documentId {
        assert s'.lostDocuments[s.lostDocumentId].documentId == j;
      } else {
        assert s'.documents[j] == s.documents[j];
        HasReportGrows(s, s', j);
      }
    }
  }

  /** `createLostDocument` keeps "every lost document has a report". */
  lemma CreateLostKeepsLostReported(s: Store, ins: InsertLostDocument, now: int)
    requires Valid(s) && LostMeansReported(s)
    ensures LostMeansReported(CreateLostDocument(s, ins, now).0)
  {
    CreateLostDocumentAddsOne(s, ins, now);
    var (s', v) := CreateLostDocument(s, ins, now);
    LostReportedAfterFiling(s, ins, now, s', v);
  }

  /** `createDocument` has no side effect, so creating a document already "lost" leaves it
      without a report: the invariant breaks until `createLostDocument` runs. */
  lemma CreateLostStatusUnreported(s: Store, ins: InsertDocument, now: int)
    requires Valid(s) && ins.status == "lost" && !HasReport(s, s.documentId)
    ensures !LostMeansReported(CreateDocument(s, ins, now).0)
  {
    var (s', d) := CreateDocument(s, ins, now);
    assert d.id in s'.documents && s'.documents[d.id].status == "lost";
    assert s'.lostDocuments == s.lostDocuments;
  }

  /** The report form's flow (report-lost-document-form.tsx): create the document with status
      "lost", then file its report. The document gains exactly one report: the one filed, at
      the given location; and for an id no report names yet it is its only report. Every lost
      document has a report again afterwards. */
  lemma ReportFormFilesOneReport(s: Store, ins: InsertDocument, location: Option<string>,
                                 description: string, now: int)
    requires Valid(s) && ins.status == "lost" && LostMeansReported(s)
    ensures var (s1, d) := CreateDocument(s, ins, now);
            var (s2, v) := CreateLostDocument(s1, InsertLostDocument(d.id, ins.userId, now, location, description), now);
            && ReportsOn(s2, d.id) == ReportsOn(s, d.id) + {s.lostDocumentId}
            && (!HasReport(s, d.id) ==> ReportsOn(s2, d.id) == {s.lostDocumentId})
            && |s2.lostDocuments| == |s.lostDocuments| + 1
            && s2.documents[d.id].status == "lost"
            && s2.documents[d.id].lostLocation == location
            && LostMeansReported(s2)
            && (v.Some? <==> ins.userId in s.users)
  {
    var (s1, d) := CreateDocument(s, ins, now);
    var lins := InsertLostDocument(d.id, ins.userId, now, location, description);
    CreateLostDocumentAddsOne(s1, lins, now);
    var (s2, v) := CreateLostDocument(s1, lins, now);
    ReportFormState(s, ins, now, s1, d, lins, s2, v);
  }

  lemma ReportFormState(s: Store, ins: InsertDocument, now: int, s1: Store, d: Document,
                        lins: InsertLostDocument, s2: Store, v: Option<LostDocumentView>)
    requires Valid(s) && LostMeansReported(s)
    requires (s1, d) == CreateDocument(s, ins, now) && lins.documentId == d.id && lins.userId == ins.userId
    requires FilesOneReport(s1, lins, now, s2, v)
    ensures ReportsOn(s2, d.id) == ReportsOn(s, d.id) + {s.lostDocumentId}
    ensures !HasReport(s, d.id) ==> ReportsOn(s2, d.id) == {s.lostDocumentId}
    ensures LostMeansReported(s2)
  {
    assert s1.lostDocuments == s.lostDocuments;
    assert ReportsOn(s1, d.id) == ReportsOn(s, d.id);
    LostReportedAfterFiling(s1, lins, now, s2, v);
    if !HasReport(s, d.id) {
      forall j | j in ReportsOn(s2, d.id) ensures j == s.lostDocumentId {
        if j != s.lostDocumentId {
          assert false;
        }
      }
    }
  }

  /** The lost-document scenario: register a user, add an active document, mark it lost at
      "Maputo". The document is lost at "Maputo" and one report on it names its owner. */
  lemma MarkLostScenario(user: InsertUser, doc: InsertDocument, now: int)
    requires doc.status == "active"
    ensures var (s1, u) := CreateUser(Empty, user);
            var (s2, d) := CreateDocument(s1, doc.(userId := u.id), now);
            var (s3, _) := UpdateDocument(s2, d.id, NoDocumentChange.(status := Set("lost"), lostLocation := Set(Some("Maputo"))), now);
            && s3.documents[d.id].status == "lost"
            && s3.documents[d.id].lostLocation == Some("Maputo")
            && ReportsOn(s3, d.id) == {1}
            && s3.lostDocuments[1].userId == u.id
            && s3.lostDocuments[1].lostLocation == Some("Maputo")
  {
    var (s1, u) := CreateUser(Empty, user);
    var (s2, d) := CreateDocument(s1, doc.(userId := u.id), now);
    assert !HasReport(s2, d.id);
    MarkLostFilesOneReport(s2, d.id, NoDocumentChange.(status := Set("lost"), lostLocation := Set(Some("Maputo"))), now);
  }

  /** `deleteDocument` returns true exactly when the id was present, and afterwards the
      document is gone and only it. */
  lemma DeleteThenGet(s: Store, id: int)
    requires Valid(s)
    ensures var (s', found) := DeleteDocument(s, id);
            && (found <==> GetDocument(s, id).Some?)
            && GetDocument(s', id) == None
            && forall j :: j != id ==> GetDocument(s', j) == GetDocument(s, j)
  {
  }

  /** `getLostDocuments` succeeds exactly when every report's document and reporter exist,
      and then lists every report joined. */
  lemma LostFeedIntegrity(s: Store)
    requires Valid(s)
    ensures GetLostDocuments(s).Ok? <==> forall k :: k in s.lostDocuments ==> Joinable(s, s.lostDocuments[k])
    ensures GetLostDocuments(s).Ok? ==>
              forall k :: k in s.lostDocuments ==> Join(s, s.lostDocuments[k]) in GetLostDocuments(s).value
  {
    var l := Listed(s.lostDocuments, s.lostDocumentId);
    if GetLostDocuments(s).Ok? {
      forall k | k in s.lostDocuments
        ensures Joinable(s, s.lostDocuments[k]) && Join(s, s.lostDocuments[k]) in GetLostDocuments(s).value
      {
        var i :| 0 <= i < |l| && l[i] == s.lostDocuments[k];
        assert GetLostDocuments(s).value[i] == Join(s, l[i]);
      }
    } else {
      var i :| 0 <= i < |l| && !Joinable(s, l[i]);
      assert l[i] in s.lostDocuments.Values;
    }
  }

  /** Deleting a document that a report names makes every later `getLostDocuments` throw. */
  lemma DeleteLeavesDanglingReport(s: Store, id: int, k: int)
    requires Valid(s) && k in s.lostDocuments && s.lostDocuments[k].documentId == id
    ensures GetLostDocuments(DeleteDocument(s, id).0).Fail?
  {
    var s' := DeleteDocument(s, id).0;
    LostFeedIntegrity(s');
    assert !Joinable(s', s'.lostDocuments[k]);
  }

  // ---------------------------------------------------------------------------------------
  // Found reports

  /** `createFoundDocument` defaults the status to "pending" and awards an existing finder
      exactly 20 points (stamping its `updatedAt`); no other user changes, and an unknown
      finder changes no user at all. The report is then listed by `getFoundDocuments`. */
  lemma FoundReportAwardsTwenty(s: Store, ins: InsertFoundDocument, now: int)
    requires Valid(s)
    ensures var (s', f) := CreateFoundDocument(s, ins, now);
            && (!Truthy(ins.status) ==> f.status == "pending")
            && f in GetFoundDocuments(s')
            && s'.users.Keys == s.users.Keys
            && (ins.foundBy in s.users ==>
                  && s'.users[ins.foundBy].points == s.users[ins.foundBy].points + 20
                  && s'.users[ins.foundBy] == s.users[ins.foundBy].(points := s.users[ins.foundBy].points + 20,
                                                                  updatedAt := Some(now)))
            && (forall k :: k in s.users && k != ins.foundBy ==> s'.users[k] == s.users[k])
            && (ins.foundBy !in s.users ==> s'.users == s.users)
            && s'.documents == s.documents && s'.lostDocuments == s.lostDocuments
            && s'.conversations == s.conversations && s'.messages == s.messages
  {
    var (s', f) := CreateFoundDocument(s, ins, now);
    assert s'.foundDocuments[f.id] == f;
  }

  // ---------------------------------------------------------------------------------------
  // Conversations and messages

  /** A key above every present key is enumerated last. */
  lemma {:induction false} KeysExtend<T>(m: map<int, T>, lo: int, k: int, v: T)
    requires lo <= k && forall j :: j in m ==> j < k
    ensures KeysIn(m[k := v], lo, k + 1) == KeysIn(m, lo, k) + [k]
    decreases k - lo
  {
    if lo < k {
      KeysExtend(m, lo + 1, k, v);
    }
  }

  /** Storing a record under the counter appends it to the enumeration. */
  lemma ListedExtend<T>(m: map<int, T>, k: int, v: T)
    requires 1 <= k && forall j :: j in m ==> j < k
    ensures Listed(m[k := v], k + 1) == Listed(m, k) + [v]
  {
    KeysExtend(m, 1, k, v);
    var ks := KeysIn(m, 1, k);
    var l := Listed(m[k := v], k + 1);
    forall i | 0 <= i < |ks| ensures l[i] == Listed(m, k)[i] {
      assert ks[i] in m;
    }
  }

  /** The messages of a conversation in storage order, before sorting. */
  function Stored(s: Store, conversationId: int): seq<Chat> {
    Filter(Listed(s.messages, s.messageId), InConversation(conversationId))
  }

  /** Sorting keeps the messages of the conversation. */
  lemma MessagesAsStored(s: Store, conversationId: int)
    requires Valid(s)
    ensures multiset(GetMessagesByConversationId(s, conversationId)) == multiset(Stored(s, conversationId))
  {
    SortByTimeCorrect(Stored(s, conversationId));
  }

  lemma FilterOneMore(before: seq<Chat>, m: Chat, p: Chat -> bool)
    ensures multiset(Filter(before + [m], p)) == multiset(Filter(before, p)) + (if p(m) then multiset{m} else multiset{})
  {
    FilterAppend(before, [m], p);
    assert Filter([m], p) == (if p(m) then [m] else []) + Filter([], p);
  }

  lemma StoredGainsMessage(s: Store, ins: InsertChat, now: int, conversationId: int)
    requires Valid(s)
    ensures var (s', m) := CreateMessage(s, ins, now);
            multiset(Stored(s', conversationId))
            == multiset(Stored(s, conversationId)) + (if ins.conversationId == conversationId then multiset{m} else multiset{})
  {
    var (s', m) := CreateMessage(s, ins, now);
    ListedExtend(s.messages, s.messageId, m);
    assert Listed(s'.messages, s'.messageId) == Listed(s.messages, s.messageId) + [m];
    var p := InConversation(conversationId);
    FilterOneMore(Listed(s.messages, s.messageId), m, p);
    assert p(m) == (ins.conversationId == conversationId);
  }

  /** `createMessage` adds exactly the new message to its conversation's message list and
      leaves every other conversation's list as it was. */
  lemma MessageJoinsConversation(s: Store, ins: InsertChat, now: int, conversationId: int)
    requires Valid(s)
    ensures var (s', m) := CreateMessage(s, ins, now);
            multiset(GetMessagesByConversationId(s', conversationId))
            == multiset(GetMessagesByConversationId(s, conversationId))
               + (if ins.conversationId == conversationId then multiset{m} else multiset{})
  {
    var (s', m) := CreateMessage(s, ins, now);
    StoredGainsMessage(s, ins, now, conversationId);
    MessagesAsStored(s, conversationId);
    MessagesAsStored(s', conversationId);
  }

  /** `createMessage` called once per element of `inserts`, in order. */
  function CreateMessages(s: Store, inserts: seq<InsertChat>, now: int): (r: (Store, seq<Chat>))
    requires Valid(s)
    ensures Valid(r.0) && |r.1| == |inserts|
    ensures r.0.conversations.Keys == s.conversations.Keys
    decreases |inserts|
  {
    if inserts == [] then (s, [])
    else
      var (s1, m) := CreateMessage(s, inserts[0], now);
      var (s2, ms) := CreateMessages(s1, inserts[1..], now);
      (s2, [m] + ms)
  }

  /** After N messages to an existing conversation, its `lastMessage` is the Nth. */
  lemma {:induction false} LastOfSequentialMessages(s: Store, conversationId: int, inserts: seq<InsertChat>, now: int)
    requires Valid(s) && conversationId in s.conversations && inserts != []
    requires forall i :: 0 <= i < |inserts| ==> inserts[i].conversationId == conversationId
    ensures var (s', ms) := CreateMessages(s, inserts, now);
            s'.conversations[conversationId].lastMessage == Some(ms[|ms| - 1])
    decreases |inserts|
  {
    var (s1, m) := CreateMessage(s, inserts[0], now);
    if |inserts| > 1 {
      LastOfSequentialMessages(s1, conversationId, inserts[1..], now);
    }
  }

  lemma {:induction false} SequentialMessagesStored(s: Store, conversationId: int, inserts: seq<InsertChat>, now: int)
    requires Valid(s)
    requires forall i :: 0 <= i < |inserts| ==> inserts[i].conversationId == conversationId
    ensures var (s', ms) := CreateMessages(s, inserts, now);
            multiset(Stored(s', conversationId)) == multiset(Stored(s, conversationId)) + multiset(ms)
    decreases |inserts|
  {
    if inserts != [] {
      var first := CreateMessage(s, inserts[0], now);
      var rest := CreateMessages(first.0, inserts[1..], now);
      StoredGainsMessage(s, inserts[0], now, conversationId);
      SequentialMessagesStored(first.0, conversationId, inserts[1..], now);
      assert CreateMessages(s, inserts, now) == (rest.0, [first.1] + rest.1);
      assert multiset([first.1] + rest.1) == multiset{first.1} + multiset(rest.1);
      MultisetChain(multiset(Stored(s, conversationId)), multiset(Stored(first.0, conversationId)),
                    multiset(Stored(rest.0, conversationId)), multiset{first.1}, multiset(rest.1));
    }
  }

  lemma MultisetChain(a: multiset<Chat>, b: multiset<Chat>, c: multiset<Chat>, x: multiset<Chat>, y: multiset<Chat>)
    requires b == a + x && c == b + y
    ensures c == a + (x + y)
  {
  }

  /** After N messages to a conversation, its message list has gained exactly those N. */
  lemma SequentialMessagesListed(s: Store, conversationId: int, inserts: seq<InsertChat>, now: int)
    requires Valid(s)
    requires forall i :: 0 <= i < |inserts| ==> inserts[i].conversationId == conversationId
    ensures var (s', ms) := CreateMessages(s, inserts, now);
            && multiset(GetMessagesByConversationId(s', conversationId))
               == multiset(GetMessagesByConversationId(s, conversationId)) + multiset(ms)
            && |GetMessagesByConversationId(s', conversationId)|
               == |GetMessagesByConversationId(s, conversationId)| + |inserts|
  {
    var (s', ms) := CreateMessages(s, inserts, now);
    SequentialMessagesStored(s, conversationId, inserts, now);
    MessagesAsStored(s, conversationId);
    MessagesAsStored(s', conversationId);
    assert |multiset(ms)| == |inserts|;
  }

  /** `createMessage` stores an unread message unless `read` is given as true, and makes it
      the `lastMessage` of its conversation when that exists; nothing else changes. */
  lemma MessageBecomesLast(s: Store, ins: InsertChat, now: int)
    requires Valid(s)
    ensures var (s', m) := CreateMessage(s, ins, now);
            && (ins.read != Some(true) ==> !m.read)
            && (ins.timestamp == None ==> m.timestamp == now)
            && (ins.conversationId in s.conversations ==>
                  s'.conversations == s.conversations[ins.conversationId :=
                                        s.conversations[ins.conversationId].(lastMessage := Some(m))])
            && (ins.conversationId !in s.conversations ==> s'.conversations == s.conversations)
            && s'.users == s.users && s'.documents == s.documents
            && s'.lostDocuments == s.lostDocuments && s'.foundDocuments == s.foundDocuments
  {
  }
}
