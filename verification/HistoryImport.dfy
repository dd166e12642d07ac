/** The events of imported history lines (internal/histimport/histimport.go, `Event`). */
module HistoryImport {
  import opened Events
  import opened Rows
  import opened Protocol
  import opened Convergence
  import Undated

  /** The event for one entry. `idFor` is the digest of shell, time and text that names it; the device and
      host it is recorded on have no part in the name. */
  function ImportEvent(idFor: (string, int, string) -> string, device: string, host: string, shell: string, text: string,
                       e: Undated.Entry<string>): Event
  {
    var id := idFor(shell, e.startTime, text);
    Event(id, id, device, Import(ImportPayload(text, host, shell, e.startTime, e.durationMs)), e.startTime)
  }

  /** Importing one line twice gives one event if and only if it is done on one device under one host
      name; the id is the same in any case. */
  lemma SameImportIff(idFor: (string, int, string) -> string, a: string, hostA: string, b: string, hostB: string,
                      shell: string, text: string, e: Undated.Entry<string>)
    ensures ImportEvent(idFor, a, hostA, shell, text, e).eventId == ImportEvent(idFor, b, hostB, shell, text, e).eventId
    ensures ImportEvent(idFor, a, hostA, shell, text, e) == ImportEvent(idFor, b, hostB, shell, text, e)
            <==> a == b && hostA == hostB
  {
  }

  /** Two devices that each import one line of history differ in every state they can reach, whatever
      digest names the events: no sync reconciles them. */
  lemma SameLineImportedTwice(w: World, idFor: (string, int, string) -> string, a: string, hostA: string,
                              b: string, hostB: string, shell: string, text: string, e: Undated.Entry<string>)
    returns (w': World)
    requires Init(w) && a in w.nodes && b in w.nodes && a != b
    ensures var x, y := ImportEvent(idFor, a, hostA, shell, text, e), ImportEvent(idFor, b, hostB, shell, text, e);
            && Reaches(Ordered, w, w') && a in w'.nodes && b in w'.nodes
            && x.eventId in w'.nodes[a].events && w'.nodes[a].events[x.eventId] == x
            && y.eventId in w'.nodes[b].events && w'.nodes[b].events[y.eventId] == y
    ensures forall w'' :: Reaches(Nothing, w', w'') ==>
              a in w''.nodes && b in w''.nodes && w''.nodes[a].events != w''.nodes[b].events
  {
    hide Reaches;
    var x, y := ImportEvent(idFor, a, hostA, shell, text, e), ImportEvent(idFor, b, hostB, shell, text, e);
    SameImportIff(idFor, a, hostA, b, hostB, shell, text, e);
    w' := OneIdRecordedTwice(w, a, b, x, y);
  }
}
