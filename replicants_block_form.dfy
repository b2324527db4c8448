/**
 * The "Save as Copy" form: it shows a node's title and, for moderated
 * node types, a "New Draft" checkbox; on submit it replicates the node
 * under the submitted title.
 */
module ReplicantsBlockForm {
  import opened Wrappers
  import opened Content
  import opened Paths
  import opened FormApi

  /** The moderation state a copy made as a new draft is put in. */
  const DraftState := "draft"

  /** The values submitForm reads back from the form state; `draft` is
      false when the form had no draft checkbox. */
  datatype Values = Values(nodeId: nat, title: string, draft: bool)

  /** buildForm: no form without a node that has an id; otherwise the
      hidden id, the title, the submit button and, only for a node type
      with moderation enabled, a "New Draft" checkbox that starts ticked. */
  function BuildForm(node: Option<Node>, moderationByType: map<string, bool>): (form: Form)
    requires node.Some? && node.value.HasId() ==> node.value.Valid() && node.value.nodeType in moderationByType
    ensures form == map[] <==> !(node.Some? && node.value.HasId())
    ensures form != map[] ==> {"node_id", "title", "save"} <= form.Keys <= {"node_id", "title", "draft", "save"}
    ensures form != map[] ==> form["title"].TextField? && form["title"].defaultValue == node.value.Title()
    ensures "draft" in form <==> node.Some? && node.value.HasId() && moderationByType[node.value.nodeType]
    ensures "draft" in form ==> form["draft"] == Checkbox("New Draft", true)
  {
    if node.Some? && node.value.HasId() then
      var n := node.value;
      var form := map[
        "node_id" := Hidden(IntValue(n.id.value)),
        "title" := TextField("Title", n.Title())
      ];
      var form := if moderationByType[n.nodeType] then form["draft" := Checkbox("New Draft", true)] else form;
      var form := form["save" := SubmitButton("Save as Copy")];
      assert "save" in form;
      form
    else
      map[]
  }

  /** The values a form submits when the editor changes nothing, or None
      when the form lacks the id or the title. A form without the draft
      checkbox submits no draft value, which reads as false. */
  function DefaultValues(form: Form): (v: Option<Values>)
    ensures v.Some? ==> {"node_id", "title"} <= form.Keys
    ensures v.Some? ==> form["title"].TextField? && v.value.title == form["title"].defaultValue
    ensures v.Some? && v.value.draft ==> "draft" in form
  {
    if && "node_id" in form && form["node_id"].Hidden? && form["node_id"].value.IntValue?
       && form["node_id"].value.i >= 0
       && "title" in form && form["title"].TextField?
    then
      var draft := "draft" in form && form["draft"].Checkbox? && form["draft"].checked;
      Some(Values(form["node_id"].value.i, form["title"].defaultValue, draft))
    else
      None
  }

  /** Submitting the built form unchanged copies under the title in the
      language the node is shown in, and makes a new draft exactly when the
      node's type is moderated; an empty form cannot be submitted. */
  lemma UnchangedSubmitValues(node: Option<Node>, moderationByType: map<string, bool>)
    requires node.Some? && node.value.HasId() ==> node.value.Valid() && node.value.nodeType in moderationByType
    ensures !(node.Some? && node.value.HasId()) ==> DefaultValues(BuildForm(node, moderationByType)) == None
    ensures node.Some? && node.value.HasId() ==>
      var n := node.value;
      DefaultValues(BuildForm(node, moderationByType)) == Some(Values(n.id.value, n.Title(), moderationByType[n.nodeType]))
  {
  }

  /** The replicant after setTitle and, for a draft, the moderation state,
      both on the handle's own translation. */
  function ReplicantOf(replicant: Node, title: string, draft: bool): (r: Node)
    requires replicant.Valid()
    ensures r.(translations := replicant.translations) == replicant
    ensures r.Valid() && r.translations.Keys == replicant.translations.Keys
    ensures r.Title() == title
  {
    var titled := replicant.WithTranslation(replicant.langcode, replicant.Current().(title := title));
    if draft then titled.WithTranslation(titled.langcode, titled.Current().(moderation := Some(DraftState)))
    else titled
  }

  /** What a copy promises about its source: the submitted title in the
      handle's language, the draft state there exactly when a draft was
      asked for, and every other value, publication status included, as
      in the source. */
  lemma ReplicantProperties(source: Node, title: string, draft: bool)
    requires source.Valid()
    ensures var r := ReplicantOf(source, title, draft);
      && r.Valid() && r.(translations := source.translations) == source
      && r.translations.Keys == source.translations.Keys
      && r.Title() == title
      && r.Current().moderation == (if draft then Some(DraftState) else source.Current().moderation)
      && r.Current().comment == source.Current().comment
      && r.Current().status == source.Current().status
      && (forall l :: l in r.translations && l != r.langcode ==> r.translations[l] == source.translations[l])
  {
  }

  /** The default title is the one of the language the node is shown in,
      but the copy is made from the node loaded in its default language, so
      an unchanged submit writes the shown language's title into the copy's
      default translation: a node shown in French copies its French title
      over the English one of an English-default node. */
  lemma UnchangedSubmitRetitlesDefaultTranslation(node: Node, moderationByType: map<string, bool>)
    requires node.HasId() && node.Valid() && node.nodeType in moderationByType
    ensures var v := DefaultValues(BuildForm(Some(node), moderationByType));
      && v.Some?
      && var copy := ReplicantOf(node.InDefaultLanguage().Duplicate(), v.value.title, v.value.draft);
      && copy.translations[node.defaultLangcode].title == node.translations[node.langcode].title
      && (forall l :: l in copy.translations && l != node.defaultLangcode ==> copy.translations[l] == node.translations[l])
  {
    UnchangedSubmitValues(Some(node), moderationByType);
  }

  /** The redirect submitForm builds: the copy's page, or its latest
      revision for a draft. */
  function RedirectFor(id: nat, draft: bool): (path: string)
    ensures ParseRoute(path) == Some(if draft then Latest(id) else Canonical(id))
  {
    RoutePathRoundTrip(if draft then Latest(id) else Canonical(id));
    RoutePath(if draft then Latest(id) else Canonical(id))
  }

  /** submitForm: load the node and read its title before letting the
      handle go, replicate it (the replicator saves the copy, so it already
      has an id), set the title and, for a draft, the draft state and the
      '/latest' redirect, save again, and report the copy. The
      replicator's refusal is the parameter `replicatorFails`. */
  method SubmitForm(storage: NodeStorage, values: Values, replicatorFails: bool) returns (outcome: Outcome)
    requires storage.Valid()
    modifies storage
    ensures storage.Valid()
    ensures values.nodeId !in old(storage.nodes) ==>
      outcome == Fatal(SourceNotFound) && unchanged(storage)
    ensures values.nodeId in old(storage.nodes) ==>
      values.nodeId in storage.nodes && storage.nodes[values.nodeId] == old(storage.nodes[values.nodeId])
    ensures values.nodeId in old(storage.nodes) ==>
      var source := old(storage.nodes)[values.nodeId].InDefaultLanguage();
      var newId := old(storage.nextId);
      if replicatorFails then
        outcome == NotCopied && unchanged(storage)
      else
        && newId !in old(storage.nodes)
        && storage.nodes == old(storage.nodes)[newId := ReplicantOf(source.Duplicate(), values.title, values.draft).(id := Some(newId))]
        && storage.nextId == newId + 1
        && outcome == Copied(Message(source.Title(), values.nodeId, values.title, newId), RedirectFor(newId, values.draft))
  {
    var node := storage.Load(values.nodeId);
    if node.None? {
      return Fatal(SourceNotFound);
    }
    var nodeTitle := node.value.Title();
    node := None;
    if replicatorFails {
      return NotCopied;
    }
    // replicateByEntityId loads the node by id itself, duplicates and saves it.
    var original := storage.Load(values.nodeId);
    var replicant := storage.Save(original.value.Duplicate());
    var replicantId := replicant.id.value;
    var url := NodePrefix + NatToString(replicantId);
    replicant := replicant.WithTranslation(replicant.langcode, replicant.Current().(title := values.title));
    if values.draft {
      replicant := replicant.WithTranslation(replicant.langcode, replicant.Current().(moderation := Some(DraftState)));
      url := url + LatestSuffix;
    }
    replicant := storage.Save(replicant);
    var message := Message(nodeTitle, values.nodeId, replicant.Title(), replicantId);
    outcome := Copied(message, url);
  }
}
