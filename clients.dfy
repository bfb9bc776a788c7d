/** The clients page (src/pages/Clients.tsx): the form, the save it guards
    and the search over name and phone. */
module Clients {
  import opened Common
  import opened Schema
  import opened RemoteStore

  const NameRequired := "Nome é obrigatório"
  const SaveFailed := "Erro ao salvar cliente"
  const Updated := "Cliente atualizado com sucesso"
  const Created := "Cliente criado com sucesso"

  // ---------------------------------------------------------------------------
  // The form and the save
  // ---------------------------------------------------------------------------

  /** The dialog's state: the client being edited (if any) and the two text fields. */
  datatype ClientForm = ClientForm(editing: Option<Client>, name: string, phone: string)

  /** The phone field shows a missing phone as the empty text. */
  function PhoneText(phone: Option<string>): (text: string)
    ensures phone.Some? ==> text == phone.value
    ensures phone.None? ==> text == ""
  {
    match phone
    case Some(p) => p
    case None => ""
  }

  /** `handleOpenDialog`: a client's fields, or a blank form for a new client. */
  function OpenClientForm(client: Option<Client>): (form: ClientForm)
    ensures form.editing == client
    ensures client.None? ==> form.name == "" && form.phone == ""
    ensures client.Some? ==> form.name == client.value.name && form.phone == PhoneText(client.value.phone)
  {
    match client
    case Some(c) => ClientForm(client, c.name, PhoneText(c.phone))
    case None => ClientForm(None, "", "")
  }

  /** `handleSaveClient`: an empty name is refused before anything is written;
      otherwise the edited client is updated, or a new one inserted, with the
      phone field's text (the empty text, not a missing phone, when it is blank). */
  method SaveClient(store: Store, form: ClientForm, userId: Option<Id>, assignedId: Id, accepted: bool)
    returns (r: Result<string>)
    modifies store`clients
    ensures form.name == "" ==> r == Err(NameRequired) && store.clients == old(store.clients)
    ensures form.name != "" && !accepted ==> r == Err(SaveFailed) && store.clients == old(store.clients)
    ensures form.name != "" && accepted && form.editing.Some? ==>
      r == Ok(Updated)
      && store.clients == UpdateClientRows(old(store.clients), form.editing.value.id, form.name, Some(form.phone))
    ensures form.name != "" && accepted && form.editing.None? ==>
      r == Ok(Created)
      && store.clients == old(store.clients) + [Client(assignedId, form.name, Some(form.phone), userId)]
  {
    if form.name == "" {
      return Err(NameRequired);
    }
    var ok: bool;
    if form.editing.Some? {
      ok := store.UpdateClient(form.editing.value.id, form.name, Some(form.phone), accepted);
      r := if ok then Ok(Updated) else Err(SaveFailed);
    } else {
      ok := store.InsertClient(Client(assignedId, form.name, Some(form.phone), userId), accepted);
      r := if ok then Ok(Created) else Err(SaveFailed);
    }
  }

  /** Saving an opened form untouched keeps the client's name and phone,
      except that a missing phone is written back as the empty text. */
  lemma ReopenedClientRow(store: seq<Client>, c: Client, i: int)
    requires 0 <= i < |store| && store[i].id == c.id
    ensures var form := OpenClientForm(Some(c));
            var row := UpdateClientRows(store, c.id, form.name, Some(form.phone))[i];
            row.id == c.id && row.name == c.name && row.createdBy == store[i].createdBy
            && row.phone == (if c.phone.Some? then c.phone else Some(""))
  {
  }

  // ---------------------------------------------------------------------------
  // Search
  // ---------------------------------------------------------------------------

  /** A client is shown when its lowercased name contains the lowercased term,
      or when it has a non-empty phone containing the term as typed. */
  predicate ClientMatches(c: Client, term: string)
  {
    Includes(Lower(c.name), Lower(term))
    || (c.phone.Some? && c.phone.value != "" && Includes(c.phone.value, term))
  }

  function MatchesTerm(term: string): Client -> bool
  {
    (c: Client) => ClientMatches(c, term)
  }

  /** `filteredClients`: in order, the clients that match the term; every
      client for an empty term. */
  function FilterClients(clients: seq<Client>, term: string): (r: seq<Client>)
    ensures IsSubsequence(r, clients)
    ensures forall c :: c in r <==> c in clients && ClientMatches(c, term)
    ensures term == "" ==> r == clients
  {
    if term == "" then
      assert forall i :: 0 <= i < |clients| ==> MatchesTerm(term)(clients[i]) by {
        forall i | 0 <= i < |clients| ensures Includes(Lower(clients[i].name), "") {
          IncludesEmpty(Lower(clients[i].name));
        }
      }
      Filter(clients, MatchesTerm(term))
    else
      Filter(clients, MatchesTerm(term))
  }

  /** A name match is found whatever the case of the term. */
  lemma NameSearchIgnoresCase(clients: seq<Client>, c: Client, term: string)
    requires c in clients && Includes(Lower(c.name), Lower(term))
    ensures c in FilterClients(clients, Lower(term)) && c in FilterClients(clients, term)
  {
    LowerIdempotent(term);
  }

  /** A missing phone and an empty phone are never matched through the phone,
      so writing a blank phone back as the empty text changes no search result. */
  lemma BlankPhoneSearchesAlike(c: Client, term: string)
    requires c.phone.None?
    ensures ClientMatches(c, term) <==> ClientMatches(c.(phone := Some("")), term)
    ensures ClientMatches(c, term) <==> Includes(Lower(c.name), Lower(term))
  {
  }

  /** A phone is found by any block of its digits. */
  lemma PhoneSearch(clients: seq<Client>, c: Client, term: string, i: int)
    requires c in clients && c.phone.Some? && c.phone.value != ""
    requires 0 <= i && i + |term| <= |c.phone.value| && c.phone.value[i..i + |term|] == term
    ensures c in FilterClients(clients, term)
  {
    assert OccursAt(c.phone.value, term, i);
    IncludesIff(c.phone.value, term);
  }

  /** Two clients, searched by part of one name typed in capitals. */
  lemma SearchExample()
    ensures var ana := Client("1", "Ana", Some("111"), None);
            var bia := Client("2", "Bia", Some("222"), None);
            FilterClients([ana, bia], "AN") == [ana]
  {
    var ana := Client("1", "Ana", Some("111"), None);
    var bia := Client("2", "Bia", Some("222"), None);
    AnaMatches(ana);
    BiaDoesNotMatch(bia);
    assert [ana, bia][1..] == [bia];
    assert [bia][1..] == [];
  }

  lemma AnaMatches(ana: Client)
    requires ana.name == "Ana"
    ensures MatchesTerm("AN")(ana)
  {
    assert Lower("Ana") == "ana";
    assert Lower("AN") == "an";
    assert StartsWith("ana", "an");
  }

  lemma BiaDoesNotMatch(bia: Client)
    requires bia.name == "Bia" && bia.phone == Some("222")
    ensures !MatchesTerm("AN")(bia)
  {
    assert Lower("Bia") == "bia";
    assert Lower("AN") == "an";
    assert !Includes("bia", "an") by {
      assert "bia"[1..] == "ia";
      assert "ia"[1..] == "a";
      assert "a"[1..] == "";
    }
    assert !Includes("222", "AN") by {
      assert "222"[1..] == "22";
      assert "22"[1..] == "2";
      assert "2"[1..] == "";
    }
  }
}
