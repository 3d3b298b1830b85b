/**
 * The clients table and its repository. Deleting a client first deletes
 * the client's favourites through the favourites repository it was built
 * with.
 */
module Clients {
  import opened Wrappers
  import opened Favorites

  datatype Client = Client(id: int, name: string, email: string)

  /** The validated fields of an update request; an absent field is left as it is. */
  datatype ClientFields = ClientFields(name: Option<string>, email: Option<string>)

  /** `$client->update($data)`: the supplied fields overwrite, the others stay. */
  function Updated(client: Client, data: ClientFields): (updated: Client)
    ensures updated.id == client.id
    ensures updated.name == (if data.name.Some? then data.name.value else client.name)
    ensures updated.email == (if data.email.Some? then data.email.value else client.email)
  {
    client.(name := if data.name.Some? then data.name.value else client.name,
            email := if data.email.Some? then data.email.value else client.email)
  }

  /** Applying the same update twice is the same as applying it once. */
  lemma UpdateIdempotent(client: Client, data: ClientFields)
    ensures Updated(Updated(client, data), data) == Updated(client, data)
  {
  }

  /** An update that supplies no field leaves the client as it was. */
  lemma EmptyUpdateIsIdentity(client: Client)
    ensures Updated(client, ClientFields(None, None)) == client
  {
  }

  class ClientsRepository {
    const favoriteProductsRepository: ClientFavoriteProductsRepository
    /** The clients table, by primary key. */
    var clients: map<int, Client>
    /** The next auto-increment key. */
    var nextId: nat

    ghost predicate Valid()
      reads this, favoriteProductsRepository
    {
      && favoriteProductsRepository.Valid()
      && 0 < nextId
      && forall id :: id in clients ==> clients[id].id == id && 0 < id < nextId
    }

    constructor (favoriteProductsRepository: ClientFavoriteProductsRepository)
      requires favoriteProductsRepository.Valid()
      ensures Valid() && clients == map[]
      ensures this.favoriteProductsRepository == favoriteProductsRepository
    {
      this.favoriteProductsRepository := favoriteProductsRepository;
      clients := map[];
      nextId := 1;
    }

    /** `createClient($data)`: inserts a client under a fresh key and returns it. */
    method CreateClient(name: string, email: string) returns (client: Client)
      requires Valid()
      modifies this
      ensures Valid()
      ensures client == Client(old(nextId), name, email)
      ensures client.id !in old(clients)
      ensures clients == old(clients)[client.id := client]
    {
      client := Client(nextId, name, email);
      clients := clients[nextId := client];
      nextId := nextId + 1;
    }

    /** `getAllClients()`: every client in the table. */
    method GetAllClients() returns (all: set<Client>)
      requires Valid()
      ensures forall c :: c in all <==> c.id in clients && clients[c.id] == c
    {
      all := set id | id in clients :: clients[id];
    }

    /** `getClient($id)`: the client with that key, or null. */
    method GetClient(id: int) returns (client: Option<Client>)
      requires Valid()
      ensures client.None? <==> id !in clients
      ensures client.Some? ==> client.value == clients[id] && client.value.id == id
    {
      if id in clients {
        client := Some(clients[id]);
      } else {
        client := None;
      }
    }

    /**
     * `updateClient($id, $data)`: null and no change for a missing key;
     * otherwise the supplied fields are overwritten and the updated client
     * returned.
     */
    method UpdateClient(id: int, data: ClientFields) returns (client: Option<Client>)
      requires Valid()
      modifies this
      ensures Valid()
      ensures id !in old(clients) ==> client == None && clients == old(clients)
      ensures id in old(clients) ==> client == Some(Updated(old(clients)[id], data))
      ensures id in old(clients) ==> clients == old(clients)[id := Updated(old(clients)[id], data)]
      ensures nextId == old(nextId)
    {
      if id !in clients {
        return None;
      }
      var updated := Updated(clients[id], data);
      clients := clients[id := updated];
      client := Some(updated);
    }

    /**
     * `deleteClient($id)`: null and no change for a missing key; otherwise
     * the client's favourites are deleted, then the client, and the deleted
     * client is returned.
     */
    method DeleteClient(id: int) returns (client: Option<Client>)
      requires Valid()
      modifies this, favoriteProductsRepository
      ensures Valid()
      ensures id !in old(clients) ==> client == None && clients == old(clients)
      ensures id !in old(clients) ==> unchanged(favoriteProductsRepository)
      ensures favoriteProductsRepository.nextId == old(favoriteProductsRepository.nextId)
      ensures id in old(clients) ==> client == Some(old(clients)[id])
      ensures id in old(clients) ==> clients == old(clients) - {id}
      ensures id in old(clients) ==>
        favoriteProductsRepository.rows == Filter(old(favoriteProductsRepository.rows), ClientIs(id), false)
      ensures id in old(clients) ==>
        forall f :: f in favoriteProductsRepository.rows <==>
          f in old(favoriteProductsRepository.rows) && f.clientId != id
      ensures nextId == old(nextId)
    {
      if id !in clients {
        return None;
      }
      client := Some(clients[id]);
      favoriteProductsRepository.DeleteByClientId(id);
      clients := clients - {id};
    }
  }
}
