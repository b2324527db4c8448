/**
 * Nodes, their translations, and the node storage that loads and saves them.
 */
module Content {
  import opened Wrappers

  /** The values one language of a node carries: the title, the comment
      field's status (0 hidden, 1 closed, 2 open; meaningless when the
      node's type has no comment field), the publication status
      (1 published, 0 unpublished) and the moderation state, if one is set. */
  datatype Translation = Translation(title: string, comment: int, status: int, moderation: Option<string>)

  /** A node as a handle the code holds: `id` is absent until the node is
      first saved, `langcode` is the language the handle is in (the one
      getTitle, setTitle and the field accessors act on),
      `hasCommentField` says whether the node's type has a field named
      `comment` (fields are defined per type, so all translations agree),
      and `translations` holds every language the node exists in. */
  datatype Node = Node(
    id: Option<nat>,
    nodeType: string,
    hasCommentField: bool,
    defaultLangcode: string,
    langcode: string,
    translations: map<string, Translation>)
  {
    /** Every node has its default translation, and a handle is always in
        one of the node's languages. */
    predicate Valid() {
      defaultLangcode in translations && langcode in translations
    }

    /** `$nid = $node->id()` used as a condition: NULL and 0 are false. */
    predicate HasId()
      ensures HasId() ==> id.Some? && 1 <= id.value
    {
      id.Some? && id.value != 0
    }

    /** The translation the handle is in. */
    function Current(): Translation
      requires Valid()
    {
      translations[langcode]
    }

    /** getTitle(): the title of the handle's language. */
    function Title(): string
      requires Valid()
    {
      Current().title
    }

    /** The same node, with the handle switched to its default language. */
    function InDefaultLanguage(): (n: Node)
      ensures n.(langcode := langcode) == this
      ensures Valid() ==> n.Valid() && n.Title() == translations[defaultLangcode].title
    {
      this.(langcode := defaultLangcode)
    }

    /** The same node with one translation replaced. */
    function WithTranslation(lang: string, t: Translation): (n: Node)
      requires lang in translations
      ensures n.Valid() == Valid()
      ensures n.translations.Keys == translations.Keys
    {
      this.(translations := translations[lang := t])
    }

    /** The replicator's structural copy (createDuplicate): every
        translation is copied as it is and the copy has no id until it is
        saved. */
    function Duplicate(): (c: Node)
      ensures c.id.None? && !c.HasId()
      ensures c.(id := id) == this
      ensures c.Valid() == Valid()
    {
      this.(id := None)
    }
  }

  /** The node storage: saved nodes by id, and the id the next new node
      receives. */
  class NodeStorage {
    var nodes: map<nat, Node>
    var nextId: nat

    /** An empty storage; the first node saved gets id 1. */
    constructor ()
      ensures Valid() && nodes == map[] && nextId == 1
    {
      nodes := map[];
      nextId := 1;
    }

    /** Ids are positive, lower than `nextId`, and each stored node carries
        its own id. */
    ghost predicate Valid()
      reads this
    {
      && 1 <= nextId
      && forall id :: id in nodes ==> 1 <= id < nextId && nodes[id].id == Some(id) && nodes[id].Valid()
    }

    /** Node::load: the stored node, in its default language, or NULL. */
    function Load(id: nat): (n: Option<Node>)
      requires Valid()
      reads this
      ensures n.Some? <==> id in nodes
      ensures n.Some? ==> n.value.Valid() && n.value.HasId() && n.value.id == Some(id)
      ensures n.Some? ==> n.value.langcode == n.value.defaultLangcode
      ensures n.Some? ==> n.value == nodes[id].InDefaultLanguage()
    {
      if id in nodes then Some(nodes[id].InDefaultLanguage()) else None
    }

    /** save(): a node without an id is inserted under a fresh id, a node
        with one overwrites the stored node of that id. */
    method Save(n: Node) returns (saved: Node)
      requires Valid() && n.Valid()
      requires n.id.Some? ==> n.id.value in nodes
      modifies this
      ensures Valid()
      ensures saved.HasId() && saved.Valid()
      ensures n.id.None? ==> && old(nextId) !in old(nodes)
                             && saved == n.(id := Some(old(nextId)))
                             && nodes == old(nodes)[old(nextId) := saved]
                             && nextId == old(nextId) + 1
      ensures n.id.Some? ==> && saved == n
                             && nodes == old(nodes)[n.id.value := n]
                             && nextId == old(nextId)
    {
      if n.id.None? {
        saved := n.(id := Some(nextId));
        nodes := nodes[nextId := saved];
        nextId := nextId + 1;
      } else {
        saved := n;
        nodes := nodes[n.id.value := n];
      }
    }
  }
}
