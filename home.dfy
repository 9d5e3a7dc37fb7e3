/** `handleStatusToggle` of client/src/pages/home.tsx: the status rule, the update of the
    page's document list and the toast it shows. Whether the storage call succeeded is a
    parameter. */
module Home {
  import opened Schema

  /** `currentStatus === 'active' ? 'lost' : 'active'`. */
  function NewStatus(current: string): (r: string)
    ensures current == "active" ==> r == "lost"
    ensures current != "active" ==> r == "active"
    ensures r in {"active", "lost"}
  {
    if current == "active" then "lost" else "active"
  }

  /** Toggling twice from "active" comes back to "active"; from any other status it ends at
      "lost". */
  lemma ToggleTwice(current: string)
    ensures NewStatus(NewStatus(current)) == if current == "active" then "active" else "lost"
  {
  }

  /** A toast: its title and description are translation keys. */
  datatype Toast = Toast(title: string, description: string, destructive: bool)

  const MarkedLostToast := Toast("document.documentMarkedLost", "document.documentMarkedLostDesc", false)
  const StatusUpdatedToast := Toast("document.statusUpdated", "document.statusUpdatedDesc", false)
  const ErrorToast := Toast("common.error", "document.errorUpdatingStatus", true)

  /** `prev.map(doc => doc.id === id ? { ...doc, status } : doc)`. */
  function SetStatus(docs: seq<Document>, id: int, status: string): (r: seq<Document>)
    ensures |r| == |docs|
    ensures forall i :: 0 <= i < |docs| && docs[i].id != id ==> r[i] == docs[i]
    ensures forall i :: 0 <= i < |docs| && docs[i].id == id ==> r[i] == docs[i].(status := status)
  {
    seq(|docs|, i requires 0 <= i < |docs| => if docs[i].id == id then docs[i].(status := status) else docs[i])
  }

  /** The list and the toast after `handleStatusToggle(id, current)`; `saved` says whether
      the storage update went through (when it throws, only the error toast is shown). */
  datatype Toggle = Toggle(documents: seq<Document>, toast: Toast)

  function HandleStatusToggle(docs: seq<Document>, id: int, current: string, saved: bool): (r: Toggle)
    ensures !saved ==> r == Toggle(docs, ErrorToast)
    ensures saved ==> r.documents == SetStatus(docs, id, NewStatus(current))
    ensures saved ==> (r.toast == MarkedLostToast <==> NewStatus(current) == "lost")
    ensures saved ==> (r.toast == StatusUpdatedToast <==> NewStatus(current) == "active")
  {
    if !saved then Toggle(docs, ErrorToast)
    else
      var status := NewStatus(current);
      Toggle(SetStatus(docs, id, status), if status == "lost" then MarkedLostToast else StatusUpdatedToast)
  }

  /** Marking an active document lost and then toggling it back restores the list, as long
      as every document with that id was active. */
  lemma ToggleBackRestores(docs: seq<Document>, id: int)
    requires forall i :: 0 <= i < |docs| && docs[i].id == id ==> docs[i].status == "active"
    ensures var marked := HandleStatusToggle(docs, id, "active", true).documents;
            HandleStatusToggle(marked, id, "lost", true).documents == docs
  {
    var marked := HandleStatusToggle(docs, id, "active", true).documents;
    var back := HandleStatusToggle(marked, id, "lost", true).documents;
    assert |back| == |docs|;
    forall i | 0 <= i < |docs| ensures back[i] == docs[i] {
      if docs[i].id == id {
        assert marked[i] == docs[i].(status := "lost");
      }
    }
  }
}
