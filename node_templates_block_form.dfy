/**
 * The "Create Template" form: it shows a node's title and comment setting,
 * and on submit clones the node into an unpublished template.
 */
module NodeTemplatesBlockForm {
  import opened Wrappers
  import opened Content
  import opened Paths
  import opened FormApi

  /** The moderation state every translation of a template is put in. */
  const TemplateState := "template"

  /** The values submitForm reads back from the form state. */
  datatype Values = Values(nodeId: nat, langcode: string, title: string, moderation: bool, commentToggle: bool)

  /** buildForm: no form without a node that has an id; otherwise the
      hidden id and language, the title, the type's moderation setting, the
      comment checkbox and the submit button. `moderationByType` is each
      node type's workbench_moderation "enabled" setting. For a type
      without a comment field the comment status reads as NULL, so the box
      starts unticked. */
  function BuildForm(node: Option<Node>, moderationByType: map<string, bool>): (form: Form)
    requires node.Some? && node.value.HasId() ==> node.value.Valid() && node.value.nodeType in moderationByType
    ensures form == map[] <==> !(node.Some? && node.value.HasId())
    ensures form != map[] ==> form.Keys == {"node_id", "langcode", "title", "moderation", "comment_toggle", "save"}
    ensures form != map[] ==> form["title"].TextField? && form["title"].defaultValue == node.value.Title()
    ensures form != map[] ==> form["comment_toggle"].Checkbox?
    ensures form != map[] ==>
      (form["comment_toggle"].checked <==> node.value.hasCommentField && node.value.Current().comment == 2)
  {
    if node.Some? && node.value.HasId() then
      var n := node.value;
      var form := map[
        "node_id" := Hidden(IntValue(n.id.value)),
        "langcode" := Hidden(StringValue(n.langcode)),
        "title" := TextField("Title", n.Title()),
        "moderation" := Hidden(BoolValue(moderationByType[n.nodeType])),
        "comment_toggle" := Checkbox("Enable Comments", n.hasCommentField && n.Current().comment == 2),
        "save" := SubmitButton("Create Template")
      ];
      assert "save" in form;
      form
    else
      map[]
  }

  /** The values a form submits when the editor changes nothing, or None
      when the form lacks one of the elements submitForm reads. */
  function DefaultValues(form: Form): (v: Option<Values>)
    ensures v.Some? ==> {"node_id", "langcode", "title", "moderation", "comment_toggle"} <= form.Keys
    ensures v.Some? ==> form["title"].TextField? && v.value.title == form["title"].defaultValue
    ensures v.Some? ==> form["comment_toggle"].Checkbox? && v.value.commentToggle == form["comment_toggle"].checked
  {
    if && "node_id" in form && form["node_id"].Hidden? && form["node_id"].value.IntValue?
       && form["node_id"].value.i >= 0
       && "langcode" in form && form["langcode"].Hidden? && form["langcode"].value.StringValue?
       && "title" in form && form["title"].TextField?
       && "moderation" in form && form["moderation"].Hidden? && form["moderation"].value.BoolValue?
       && "comment_toggle" in form && form["comment_toggle"].Checkbox?
    then
      Some(Values(
        form["node_id"].value.i,
        form["langcode"].value.s,
        form["title"].defaultValue,
        form["moderation"].value.b,
        form["comment_toggle"].checked))
    else
      None
  }

  /** Submitting the built form unchanged hands submitForm the node's id,
      its language, its title, its type's moderation setting and "comments
      open"; an empty form cannot be submitted at all. */
  lemma UnchangedSubmitValues(node: Option<Node>, moderationByType: map<string, bool>)
    requires node.Some? && node.value.HasId() ==> node.value.Valid() && node.value.nodeType in moderationByType
    ensures !(node.Some? && node.value.HasId()) ==> DefaultValues(BuildForm(node, moderationByType)) == None
    ensures node.Some? && node.value.HasId() ==>
      var n := node.value;
      DefaultValues(BuildForm(node, moderationByType))
        == Some(Values(n.id.value, n.langcode, n.Title(), moderationByType[n.nodeType],
                       n.hasCommentField && n.Current().comment == 2))
  {
  }

  /** The comment field value a submitted checkbox stands for: open when
      ticked, closed when not. */
  function SubmittedComment(toggle: bool): (comments: int)
    ensures comments == 1 || comments == 2
    ensures comments == 2 <==> toggle
  {
    if toggle then 2 else 1
  }

  /** The checkbox default followed by the mapping back: an open or closed
      comment status survives an unchanged submit, a hidden one (0) or any
      other value comes back closed. */
  lemma CommentRoundTrip(status: int)
    ensures status == 1 || status == 2 ==> SubmittedComment(status == 2) == status
    ensures status != 1 && status != 2 ==> SubmittedComment(status == 2) == 1
  {
  }

  /** One translation after the body of the foreach: the comment value,
      the template moderation state when moderation is on, unpublished. */
  function TemplateTranslation(t: Translation, comments: int, moderation: bool): Translation {
    var withComment := t.(comment := comments);
    var moderated := if moderation then withComment.(moderation := Some(TemplateState)) else withComment;
    moderated.(status := 0)
  }

  /** The node after the foreach over all of its translation languages. */
  function AllTranslationsAsTemplate(n: Node, comments: int, moderation: bool): Node {
    n.(translations := map l | l in n.translations :: TemplateTranslation(n.translations[l], comments, moderation))
  }

  /** The template submitForm saves: the clone with the submitted title in
      the form's language, then every translation set as a template. */
  function TemplateOf(clone: Node, langcode: string, title: string, comments: int, moderation: bool): (t: Node)
    requires langcode in clone.translations
    ensures t.(translations := clone.translations) == clone
    ensures t.translations.Keys == clone.translations.Keys
    ensures t.translations[langcode].title == title
    ensures forall l :: l in t.translations && l != langcode ==> t.translations[l].title == clone.translations[l].title
    ensures forall l :: l in t.translations ==> t.translations[l].status == 0 && t.translations[l].comment == comments
  {
    var titled := clone.WithTranslation(langcode, clone.translations[langcode].(title := title));
    AllTranslationsAsTemplate(titled, comments, moderation)
  }

  /** The foreach over getTranslationLanguages(): each translation, in
      whatever order, gets the comment value, the template state when
      moderation is on, and status 0. */
  method ApplyTemplateSettings(template: Node, comments: int, moderation: bool) returns (r: Node)
    ensures r == AllTranslationsAsTemplate(template, comments, moderation)
    ensures r.translations.Keys == template.translations.Keys
    ensures forall l :: l in r.translations ==>
      && r.translations[l].status == 0
      && r.translations[l].comment == comments
      && r.translations[l].title == template.translations[l].title
      && r.translations[l].moderation == (if moderation then Some(TemplateState) else template.translations[l].moderation)
  {
    r := template;
    var todo := template.translations.Keys;
    while todo != {}
      invariant todo <= template.translations.Keys
      invariant r == template.(translations := r.translations)
      invariant r.translations.Keys == template.translations.Keys
      invariant forall l :: l in todo ==> r.translations[l] == template.translations[l]
      invariant forall l :: l in r.translations && l !in todo ==>
        r.translations[l] == TemplateTranslation(template.translations[l], comments, moderation)
      decreases todo
    {
      var id :| id in todo;
      var t := r.translations[id];
      t := t.(comment := comments);
      if moderation {
        t := t.(moderation := Some(TemplateState));
      }
      t := t.(status := 0);
      r := r.WithTranslation(id, t);
      todo := todo - {id};
    }
  }

  /** What a template promises about its source: no id, the same
      languages, every translation unpublished with the submitted comment
      value, the new title in the form's language only, and the template
      moderation state everywhere exactly when moderation is on. */
  lemma TemplateProperties(source: Node, langcode: string, title: string, comments: int, moderation: bool)
    requires langcode in source.translations
    ensures var t := TemplateOf(source.Duplicate(), langcode, title, comments, moderation);
      && t.id.None?
      && t.nodeType == source.nodeType && t.langcode == source.langcode
      && t.translations.Keys == source.translations.Keys
      && t.translations[langcode].title == title
      && (forall l :: l in t.translations ==> t.translations[l].status == 0 && t.translations[l].comment == comments)
      && (forall l :: l in t.translations && l != langcode ==> t.translations[l].title == source.translations[l].title)
      && (forall l :: l in t.translations ==>
            t.translations[l].moderation == (if moderation then Some(TemplateState) else source.translations[l].moderation))
  {
  }

  /** submitForm: load the node and read its title in the form's language,
      clone it, set the title in that language, set every translation as a
      template, save, and report the copy with a redirect to it. The
      replicator's refusal to clone is the parameter `replicatorFails`.
      For a node type without a comment field the first set('comment')
      throws, so the clone is never saved. */
  method SubmitForm(storage: NodeStorage, values: Values, replicatorFails: bool) returns (outcome: Outcome)
    requires storage.Valid()
    modifies storage
    ensures storage.Valid()
    ensures values.nodeId !in old(storage.nodes) ==>
      outcome == Fatal(SourceNotFound) && unchanged(storage)
    ensures values.nodeId in old(storage.nodes) ==>
      values.nodeId in storage.nodes && storage.nodes[values.nodeId] == old(storage.nodes[values.nodeId])
    ensures values.nodeId in old(storage.nodes) && values.langcode !in old(storage.nodes)[values.nodeId].translations ==>
      outcome == Fatal(TranslationNotFound) && unchanged(storage)
    ensures values.nodeId in old(storage.nodes) && values.langcode in old(storage.nodes)[values.nodeId].translations ==>
      var source := old(storage.nodes)[values.nodeId];
      var newId := old(storage.nextId);
      var template := TemplateOf(source.InDefaultLanguage().Duplicate(), values.langcode, values.title,
                                 SubmittedComment(values.commentToggle), values.moderation);
      if replicatorFails then
        outcome == NotCopied && unchanged(storage)
      else if !source.hasCommentField then
        outcome == Fatal(CommentFieldUnknown) && unchanged(storage)
      else
        && newId !in old(storage.nodes)
        && storage.nodes == old(storage.nodes)[newId := template.(id := Some(newId))]
        && storage.nextId == newId + 1
        && outcome == Copied(Message(source.translations[values.langcode].title, values.nodeId, values.title, newId),
                             RoutePath(Canonical(newId)))
  {
    var comments := SubmittedComment(values.commentToggle);
    var node := storage.Load(values.nodeId);
    if node.None? {
      return Fatal(SourceNotFound);
    }
    if values.langcode !in node.value.translations {
      return Fatal(TranslationNotFound);
    }
    var nodeTitle := node.value.translations[values.langcode].title;
    if replicatorFails {
      return NotCopied;
    }
    // cloneByEntityId loads the node by id itself and duplicates it.
    var original := storage.Load(values.nodeId);
    var template := original.value.Duplicate();
    template := template.WithTranslation(values.langcode, template.translations[values.langcode].(title := values.title));
    if !template.hasCommentField {
      // The foreach's first set('comment', ...) throws before anything is saved.
      return Fatal(CommentFieldUnknown);
    }
    template := ApplyTemplateSettings(template, comments, values.moderation);
    template := storage.Save(template);
    var templateId := template.id.value;
    var message := Message(nodeTitle, values.nodeId, template.translations[values.langcode].title, templateId);
    var url := NodePrefix + NatToString(templateId);
    outcome := Copied(message, url);
  }
}
