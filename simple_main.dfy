/** The in-memory store of the single-file service: two independent
    collections, users and products, each keyed by an identity that the store
    assigns from its own counter. */
module SimpleMain {
  import opened Common

  datatype User = User(
    id: nat,
    username: string,
    email: string,
    fullName: string,
    isActive: bool,
    createAt: Time)

  datatype Product = Product(
    id: nat,
    name: string,
    description: string,
    price: real,
    stock: int,
    category: string,
    isActive: bool,
    createAt: Time)

  /** The demonstration records the store is constructed with, both at key 1. */
  function SeedUser(now: Time): User {
    User(1, "admin", "admin@example.com", "系统管理员", true, now)
  }

  function SeedProduct(now: Time): Product {
    Product(1, "Go学习指南", "从入门到精通的Go语言学习资料", 99.99, 100, "书籍", true, now)
  }

  /** One past the largest key a collection holds while its counter is
      `counter`: the seed sits at key 1 while the counter is still 1, and the
      first create overwrites it. */
  function KeyBound(counter: nat): nat {
    if counter < 2 then 2 else counter
  }

  /** Whether key `k` is held by a collection whose counter is `counter`. */
  predicate IsAssigned(k: nat, counter: nat) {
    1 <= k < KeyBound(counter)
  }

  /** The exact set of keys a collection holds when its counter is `counter`. */
  function Assigned(counter: nat): set<nat> {
    set k: nat | k < KeyBound(counter) && IsAssigned(k, counter)
  }

  /** A create at `counter` adds the key `counter` and nothing else. */
  lemma AssignedNext(counter: nat)
    requires counter >= 1
    ensures Assigned(counter) + {counter} == Assigned(counter + 1)
  {
    forall k: nat ensures k in Assigned(counter) + {counter} <==> k in Assigned(counter + 1) {
      assert IsAssigned(k, counter + 1) <==> IsAssigned(k, counter) || k == counter;
    }
  }

  /** A collection whose counter is `counter` holds `KeyBound(counter) - 1`
      records: one before any create, n after n creates. */
  lemma {:induction false} AssignedSize(counter: nat)
    ensures |Assigned(counter)| == KeyBound(counter) - 1
  {
    if counter <= 2 {
      assert Assigned(counter) == {1} by {
        assert IsAssigned(1, counter);
        forall k | k in Assigned(counter) ensures k == 1 { }
      }
    } else {
      AssignedSize(counter - 1);
      assert Assigned(counter) == Assigned(counter - 1) + {counter - 1};
    }
  }

  class MemoryDB {
    var users: map<nat, User>
    var products: map<nat, Product>
    var userID: nat
    var prodID: nat

    /** Every record is stored under its own identity, and the keys are
        exactly those the counter has handed out (plus the seed at 1). */
    ghost predicate Valid()
      reads this
    {
      && userID >= 1 && prodID >= 1
      && users.Keys == Assigned(userID)
      && products.Keys == Assigned(prodID)
      && (forall k | k in users :: users[k].id == k)
      && (forall k | k in products :: products[k].id == k)
    }

    /** NewMemoryDB: seeds key 1 of both collections but leaves both
        counters at 1. The clock is read once per seed, so the two seeds
        carry their own times. */
    constructor (userSeeded: Time, productSeeded: Time)
      ensures Valid()
      ensures users == map[1 := SeedUser(userSeeded)] && userID == 1
      ensures products == map[1 := SeedProduct(productSeeded)] && prodID == 1
    {
      users := map[1 := SeedUser(userSeeded)];
      products := map[1 := SeedProduct(productSeeded)];
      userID := 1;
      prodID := 1;
      assert IsAssigned(1, 1);
    }

    /** A snapshot of every stored user, in no particular order. */
    method GetAllUsers() returns (list: seq<User>)
      requires Valid()
      ensures |list| == |users| == KeyBound(userID) - 1
      ensures forall i | 0 <= i < |list| :: list[i].id in users && users[list[i].id] == list[i]
      ensures forall id | id in users :: users[id] in list
      ensures forall i, j | 0 <= i < j < |list| :: list[i].id != list[j].id
    {
      list := [];
      var pending := users.Keys;
      while pending != {}
        invariant pending <= users.Keys
        invariant |list| + |pending| == |users|
        invariant forall i | 0 <= i < |list| :: list[i].id in users.Keys - pending && users[list[i].id] == list[i]
        invariant forall id | id in users.Keys - pending :: users[id] in list
        invariant forall i, j | 0 <= i < j < |list| :: list[i].id != list[j].id
        decreases pending
      {
        var id :| id in pending;
        list := list + [users[id]];
        pending := pending - {id};
      }
      AssignedSize(userID);
    }

    /** Looks a user up; a missing identity is a normal negative answer. */
    method GetUserByID(id: nat) returns (user: Option<User>, found: bool)
      requires Valid()
      ensures found <==> id in users
      ensures found ==> user == Some(users[id]) && user.value.id == id
      ensures !found ==> user == None
    {
      found := id in users;
      user := if found then Some(users[id]) else None;
    }

    /** Assigns the next user identity and the creation time, stores the
        record under that identity and advances only the user counter. */
    method CreateUser(user: User, now: Time) returns (created: User)
      requires Valid()
      modifies this
      ensures Valid()
      ensures created == user.(id := old(userID), createAt := now)
      ensures users == old(users)[old(userID) := created]
      ensures userID == old(userID) + 1
      ensures products == old(products) && prodID == old(prodID)
    {
      created := user.(id := userID, createAt := now);
      AssignedNext(userID);
      users := users[userID := created];
      userID := userID + 1;
    }

    /** A snapshot of every stored product, in no particular order. */
    method GetAllProducts() returns (list: seq<Product>)
      requires Valid()
      ensures |list| == |products| == KeyBound(prodID) - 1
      ensures forall i | 0 <= i < |list| :: list[i].id in products && products[list[i].id] == list[i]
      ensures forall id | id in products :: products[id] in list
      ensures forall i, j | 0 <= i < j < |list| :: list[i].id != list[j].id
    {
      list := [];
      var pending := products.Keys;
      while pending != {}
        invariant pending <= products.Keys
        invariant |list| + |pending| == |products|
        invariant forall i | 0 <= i < |list| :: list[i].id in products.Keys - pending && products[list[i].id] == list[i]
        invariant forall id | id in products.Keys - pending :: products[id] in list
        invariant forall i, j | 0 <= i < j < |list| :: list[i].id != list[j].id
        decreases pending
      {
        var id :| id in pending;
        list := list + [products[id]];
        pending := pending - {id};
      }
      AssignedSize(prodID);
    }

    /** Looks a product up; a missing identity is a normal negative answer. */
    method GetProductByID(id: nat) returns (product: Option<Product>, found: bool)
      requires Valid()
      ensures found <==> id in products
      ensures found ==> product == Some(products[id]) && product.value.id == id
      ensures !found ==> product == None
    {
      found := id in products;
      product := if found then Some(products[id]) else None;
    }

    /** Like CreateUser on the product side, and also marks the product
        active whatever the caller sent. */
    method CreateProduct(product: Product, now: Time) returns (created: Product)
      requires Valid()
      modifies this
      ensures Valid()
      ensures created == product.(id := old(prodID), createAt := now, isActive := true)
      ensures products == old(products)[old(prodID) := created]
      ensures prodID == old(prodID) + 1
      ensures users == old(users) && userID == old(userID)
    {
      created := product.(id := prodID, createAt := now, isActive := true);
      AssignedNext(prodID);
      products := products[prodID := created];
      prodID := prodID + 1;
    }
  }

  /** On a fresh store the first CreateUser lands on key 1, replacing the
      seeded administrator: the listing then holds the new user alone. */
  method FirstCreateReplacesSeed(seeded: Time, now: Time, user: User) returns (listed: seq<User>)
    ensures listed == [user.(id := 1, createAt := now)]
  {
    var db := new MemoryDB(seeded, seeded);
    var created := db.CreateUser(user, now);
    listed := db.GetAllUsers();
    assert listed[0] == created by {
      assert listed[0].id in db.users;
    }
  }

  /** Creating any number of users leaves the product counter alone: the
      first product created afterwards still receives identity 1, and the
      user side then holds one record per create. */
  method CountersAreIndependent(seeded: Time, now: Time, batch: seq<User>, product: Product)
    returns (created: Product, userCount: nat)
    ensures created.id == 1 && created.isActive
    ensures userCount == if |batch| == 0 then 1 else |batch|
  {
    var db := new MemoryDB(seeded, seeded);
    for i := 0 to |batch|
      invariant db.Valid() && db.prodID == 1 && db.userID == i + 1
    {
      var _ := db.CreateUser(batch[i], now);
    }
    created := db.CreateProduct(product, now);
    var listed := db.GetAllUsers();
    userCount := |listed|;
  }
}
