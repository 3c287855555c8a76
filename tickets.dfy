/**
 * The ticket rules of Main.java: which tickets GET /tickets shows, how
 * POST /tickets fills a new ticket, and how PUT /ticket/{id} merges a request
 * body into the stored ticket. Rows are maps from column to text, with None
 * for SQL NULL, as the database layer hands them over.
 */
module Tickets {
  import opened Wrappers
  import opened JavaText
  import opened KeyOrders

  /** A row: column name to value, None for NULL. */
  type Record = map<string, Option<string>>

  /** Map.get: a missing column reads as null. */
  function Get(r: Record, k: string): Option<string> {
    if k in r then r[k] else None
  }

  /** String.valueOf: null is written "null". */
  function ValueText(v: Option<string>): string {
    match v
    case None => "null"
    case Some(s) => s
  }

  /** Map.getOrDefault on a request body. */
  function BodyOr(body: map<string, string>, k: string, default: string): string {
    if k in body then body[k] else default
  }

  /**
   * Objects.equals(String.valueOf(t.get("user_id")), uid): the ticket's owner
   * as text equals the token's sub. A missing sub matches nothing; a NULL
   * owner reads "null" and so matches a sub that is the text "null".
   */
  predicate OwnedBy(t: Record, uid: Option<string>) {
    uid.Some? && ValueText(Get(t, "user_id")) == uid.value
  }

  /** The tickets owned by uid, in their original order. */
  function Owned(ts: seq<Record>, uid: Option<string>): (r: seq<Record>)
    ensures |r| <= |ts|
    ensures forall t :: t in r <==> t in ts && OwnedBy(t, uid)
  {
    if ts == [] then []
    else
      var init, last := ts[..|ts| - 1], ts[|ts| - 1];
      assert ts == init + [last];
      Owned(init, uid) + (if OwnedBy(last, uid) then [last] else [])
  }

  /** Filtering a concatenation filters each part: the order of the list is kept. */
  lemma {:induction false} OwnedAppend(a: seq<Record>, b: seq<Record>, uid: Option<string>)
    ensures Owned(a + b, uid) == Owned(a, uid) + Owned(b, uid)
    decreases |b|
  {
    if b != [] {
      var init := b[..|b| - 1];
      var last := b[|b| - 1];
      var tail := if OwnedBy(last, uid) then [last] else [];
      assert (a + b)[..|a + b| - 1] == a + init;
      assert (a + b)[|a + b| - 1] == last;
      OwnedAppend(a, init, uid);
      assert Owned(a + b, uid) == Owned(a, uid) + Owned(init, uid) + tail;
      assert Owned(b, uid) == Owned(init, uid) + tail;
    } else {
      assert a + b == a;
    }
  }

  /** A list of the caller's own tickets is shown whole. */
  lemma {:induction false} OwnedAll(ts: seq<Record>, uid: Option<string>)
    requires forall i :: 0 <= i < |ts| ==> OwnedBy(ts[i], uid)
    ensures Owned(ts, uid) == ts
  {
    if ts != [] {
      OwnedAll(ts[..|ts| - 1], uid);
    }
  }

  /** The text "null" as a sub sees every ticket whose owner is NULL. */
  lemma NullOwnerMatchesNullText(t: Record)
    requires "user_id" in t && t["user_id"] == None
    ensures OwnedBy(t, Some("null")) && !OwnedBy(t, None)
  {
  }

  /** What GET /tickets lists: everything for a tecnico, otherwise the caller's own tickets. */
  function Visible(ts: seq<Record>, role: string, uid: Option<string>): seq<Record>
  {
    if role == "tecnico" then ts else Owned(ts, uid)
  }

  /** The listing loop of handleTickets. */
  method VisibleTickets(tickets: seq<Record>, role: string, uid: Option<string>) returns (visible: seq<Record>)
    ensures visible == Visible(tickets, role, uid)
  {
    if role == "tecnico" {
      return tickets;
    }
    visible := [];
    var i := 0;
    while i < |tickets|
      invariant 0 <= i <= |tickets|
      invariant visible == Owned(tickets[..i], uid)
    {
      var t := tickets[i];
      assert tickets[..i + 1][..i] == tickets[..i];
      if OwnedBy(t, uid) {
        visible := visible + [t];
      }
      i := i + 1;
    }
    assert tickets[..i] == tickets;
  }

  /** The columns a ticket row has. */
  const TicketColumns: set<string> := {
    "id", "title", "description", "category", "priority", "status", "location",
    "requester_name", "requester_sector", "assigned_to", "user_id", "created_at", "updated_at"
  }

  /** A responsible name that is present and not blank; otherwise the ticket is unassigned. */
  function Assignee(body: map<string, string>): Option<string> {
    if "responsible_name" in body && !IsBlank(body["responsible_name"]) then Some(body["responsible_name"]) else None
  }

  /**
   * The ticket POST /tickets stores: fresh id and timestamps, the body's
   * fields with their defaults, the responsible name as assignee, and the
   * token's sub as owner, whatever the body holds under user_id.
   */
  function NewTicket(body: map<string, string>, sub: Option<string>, id: string, now: string): (t: Record)
    ensures t.Keys == TicketColumns
    ensures t["user_id"] == sub
    ensures t["id"] == Some(id) && t["created_at"] == Some(now) && t["updated_at"] == Some(now)
    ensures t["assigned_to"].Some? <==> "responsible_name" in body && !IsBlank(body["responsible_name"])
    ensures t["assigned_to"].Some? ==> t["assigned_to"] == Some(body["responsible_name"])
    ensures forall k :: k in {"title", "description", "category", "priority", "status", "location", "requester_name", "requester_sector"} && k in body ==> t[k] == Some(body[k])
  {
    map[
      "id" := Some(id),
      "title" := Some(BodyOr(body, "title", "")),
      "description" := Some(BodyOr(body, "description", "")),
      "category" := Some(BodyOr(body, "category", "Geral")),
      "priority" := Some(BodyOr(body, "priority", "Média")),
      "status" := Some(BodyOr(body, "status", "Aberto")),
      "location" := Some(BodyOr(body, "location", "")),
      "requester_name" := Some(BodyOr(body, "requester_name", "")),
      "requester_sector" := Some(BodyOr(body, "requester_sector", "")),
      "assigned_to" := Assignee(body),
      "user_id" := sub,
      "created_at" := Some(now),
      "updated_at" := Some(now)
    ]
  }

  /** The column a body key is written to by the ticket update: responsible_name goes to assigned_to. */
  function Target(k: string): string {
    if k == "responsible_name" then "assigned_to" else k
  }

  /** The body entries, taken in iteration order, put onto the stored ticket. */
  function Merge(found: Record, body: map<string, string>, keys: seq<string>): Record
    requires forall i :: 0 <= i < |keys| ==> keys[i] in body
  {
    if keys == [] then found
    else
      var k := keys[|keys| - 1];
      Merge(found, body, keys[..|keys| - 1])[Target(k) := Some(body[k])]
  }

  /** The ticket PUT /ticket/{id} stores: the merged body, then a fresh updated_at. */
  function PutTicket(found: Record, body: map<string, string>, keys: seq<string>, now: string): Record
    requires forall i :: 0 <= i < |keys| ==> keys[i] in body
  {
    Merge(found, body, keys)["updated_at" := Some(now)]
  }

  /** A column no body entry writes to keeps its stored value, or stays absent. */
  lemma {:induction false} MergeUntouched(found: Record, body: map<string, string>, keys: seq<string>, c: string)
    requires forall i :: 0 <= i < |keys| ==> keys[i] in body
    requires forall i :: 0 <= i < |keys| ==> Target(keys[i]) != c
    ensures c in Merge(found, body, keys) <==> c in found
    ensures c in found ==> Merge(found, body, keys)[c] == found[c]
  {
    if keys != [] {
      MergeUntouched(found, body, keys[..|keys| - 1], c);
    }
  }

  /** A column written by some body entry holds the value of the last entry written to it. */
  lemma {:induction false} MergeLastWriter(found: Record, body: map<string, string>, keys: seq<string>, i: nat)
    requires forall j :: 0 <= j < |keys| ==> keys[j] in body
    requires i < |keys|
    requires forall j :: i < j < |keys| ==> Target(keys[j]) != Target(keys[i])
    ensures var c := Target(keys[i]);
            c in Merge(found, body, keys) && Merge(found, body, keys)[c] == Some(body[keys[i]])
  {
    var init := keys[..|keys| - 1];
    if i < |keys| - 1 {
      MergeLastWriter(found, body, init, i);
    }
  }

  /** The columns the body entries write to. */
  function Targets(keys: seq<string>): set<string> {
    set i | 0 <= i < |keys| :: Target(keys[i])
  }

  /** The merge adds exactly the columns the body entries write to. */
  lemma {:induction false} MergeKeys(found: Record, body: map<string, string>, keys: seq<string>)
    requires forall i :: 0 <= i < |keys| ==> keys[i] in body
    ensures Merge(found, body, keys).Keys == found.Keys + Targets(keys)
  {
    if keys != [] {
      var init := keys[..|keys| - 1];
      MergeKeys(found, body, init);
      assert Targets(keys) == Targets(init) + {Target(keys[|keys| - 1])} by {
        forall c | c in Targets(keys) ensures c in Targets(init) + {Target(keys[|keys| - 1])} {
          var i :| 0 <= i < |keys| && c == Target(keys[i]);
          if i < |keys| - 1 { assert c == Target(init[i]); }
        }
        forall c | c in Targets(init) ensures c in Targets(keys) {
          var i :| 0 <= i < |init| && c == Target(init[i]);
          assert c == Target(keys[i]);
        }
      }
    } else {
      assert Targets(keys) == {};
    }
  }

  /**
   * The ticket update keeps every column the body does not name; each body
   * key other than responsible_name, assigned_to and updated_at overwrites its
   * column; updated_at is the request time; nothing else is added.
   */
  lemma PutTicketEffect(found: Record, body: map<string, string>, keys: seq<string>, now: string)
    requires Enumerates(keys, body.Keys)
    ensures var t := PutTicket(found, body, keys, now);
            && t.Keys == found.Keys + (set k | k in body :: Target(k)) + {"updated_at"}
            && t["updated_at"] == Some(now)
            && (forall c :: c !in body && c != "updated_at" && !(c == "assigned_to" && "responsible_name" in body)
                  ==> (c in t <==> c in found) && (c in found ==> t[c] == found[c]))
            && (forall c :: c in body && c != "responsible_name" && c != "assigned_to" && c != "updated_at"
                  ==> c in t && t[c] == Some(body[c]))
  {
    var t := PutTicket(found, body, keys, now);
    MergeKeys(found, body, keys);
    assert Targets(keys) == set k | k in body :: Target(k) by {
      forall c | c in (set k | k in body :: Target(k)) ensures c in Targets(keys) {
        var k :| k in body && c == Target(k);
        var i :| 0 <= i < |keys| && keys[i] == k;
      }
    }
    forall c | c !in body && c != "updated_at" && !(c == "assigned_to" && "responsible_name" in body)
      ensures (c in t <==> c in found) && (c in found ==> t[c] == found[c])
    {
      MergeUntouched(found, body, keys, c);
    }
    forall c | c in body && c != "responsible_name" && c != "assigned_to" && c != "updated_at"
      ensures c in t && t[c] == Some(body[c])
    {
      var i :| 0 <= i < |keys| && keys[i] == c;
      MergeLastWriter(found, body, keys, i);
    }
  }

  /** A responsible_name alone in the body becomes the assignee. */
  lemma PutTicketAssignee(found: Record, body: map<string, string>, keys: seq<string>, now: string)
    requires Enumerates(keys, body.Keys)
    requires "responsible_name" in body && "assigned_to" !in body
    ensures var t := PutTicket(found, body, keys, now);
            "assigned_to" in t && t["assigned_to"] == Some(body["responsible_name"])
  {
    var i :| 0 <= i < |keys| && keys[i] == "responsible_name";
    MergeLastWriter(found, body, keys, i);
  }

  /**
   * With both responsible_name and assigned_to in the body, the assignee is
   * whichever of the two the map hands out last: the result depends on the
   * iteration order.
   */
  lemma PutTicketBothAssignees(found: Record, now: string)
    ensures var body := map["responsible_name" := "Ana", "assigned_to" := "Rui"];
            PutTicket(found, body, ["responsible_name", "assigned_to"], now)["assigned_to"] == Some("Rui")
            && PutTicket(found, body, ["assigned_to", "responsible_name"], now)["assigned_to"] == Some("Ana")
  {
    var body := map["responsible_name" := "Ana", "assigned_to" := "Rui"];
    var ab, ba := ["responsible_name", "assigned_to"], ["assigned_to", "responsible_name"];
    assert ab[..1] == ["responsible_name"] && ba[..1] == ["assigned_to"];
  }

  /** One more body entry put onto the row. */
  lemma MergeStep(found: Record, body: map<string, string>, keys: seq<string>, i: nat)
    requires forall j :: 0 <= j < |keys| ==> keys[j] in body
    requires i < |keys|
    ensures Merge(found, body, keys[..i + 1]) == Merge(found, body, keys[..i])[Target(keys[i]) := Some(body[keys[i]])]
  {
    assert keys[..i + 1][..i] == keys[..i];
  }

  /** The update loop of handleTicketById: each body entry onto the row, then the timestamp. */
  method MergeTicket(found: Record, body: map<string, string>, keys: seq<string>, now: string) returns (merged: Record)
    requires Enumerates(keys, body.Keys)
    ensures merged == PutTicket(found, body, keys, now)
  {
    merged := found;
    var i := 0;
    while i < |keys|
      invariant 0 <= i <= |keys|
      invariant merged == Merge(found, body, keys[..i])
    {
      var k := keys[i];
      var v := body[k];
      MergeStep(found, body, keys, i);
      if k == "responsible_name" {
        merged := merged["assigned_to" := Some(v)];
      } else {
        merged := merged[k := Some(v)];
      }
      i := i + 1;
    }
    assert keys[..i] == keys;
    merged := merged["updated_at" := Some(now)];
  }
}
