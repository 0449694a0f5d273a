/** The database behind the resolvers: one map from id to row per table. The
    resolvers mutate it through the prisma client, so it is a class whose
    fields the resolver methods reassign. */
module Store {
  import opened Domain

  class Database {
    var users: map<Id, User>
    var categories: map<Id, Category>
    var menuItems: map<Id, MenuItem>
    var orders: map<Id, Order>
    var inquiries: map<Id, CateringInquiry>
    var reviews: map<Id, Review>

    /** An empty database. */
    constructor ()
      ensures users == map[] && categories == map[] && menuItems == map[]
      ensures orders == map[] && inquiries == map[] && reviews == map[]
    {
      users, categories, menuItems := map[], map[], map[];
      orders, inquiries, reviews := map[], map[], map[];
    }
  }
}
