# Node templates and replicants, modelled in Dafny

This project models the two Drupal forms of the node_templates module that
copy a node.

- **NodeTemplatesBlockForm** ("Create Template") builds a form from a node.
  The form holds the node's id and language, its title, its type's
  moderation setting and an "Enable Comments" checkbox. On submit the form
  clones the node and writes the submitted title into the form's language.
  It then walks every translation of the clone. Each translation gets the
  submitted comment status (2 open, 1 closed). Each gets the moderation
  state `template` when moderation is on. Each is unpublished (`status = 0`).
  Finally the clone is saved, and a message and a redirect to `/node/<id>`
  are produced.
- **ReplicantsBlockForm** ("Save as Copy") builds a form with the node's
  title. A "New Draft" checkbox is added only for node types with
  moderation enabled. On submit it reads the source title and then drops
  the source handle. It asks the replicator for a saved copy and sets the
  copy's title. For a draft it also sets the moderation state `draft` and
  redirects to `/node/<id>/latest` instead of `/node/<id>`. Then it saves
  the copy again and reports it.

Files:

- `wrappers.dfy`: `Option`.
- `content.dfy`: a node is a value. It has an optional id, a type, a default
  language, the language its handle is in, whether its type has a comment
  field, and a map from language code to
  translation `{title, comment, status, moderation}`. `NodeStorage` is a
  class holding the saved nodes and the next id. `Load` models `Node::load`
  and `Save` models `save()`.
- `form_api.dfy`: render-array elements, the status message kept as its
  placeholder values, and a submit outcome (fatal error, no copy, or copy
  with message and redirect path).
- `paths.dfy`: the decimal rendering of ids and the redirect paths, with
  the parse that reads a path back into the route it names.
- `node_templates_block_form.dfy`, `replicants_block_form.dfy`: one module
  per form class, holding `BuildForm` and `SubmitForm`.

Modelling choices:

- The replicator is an abstract collaborator. Whether it refuses to copy is
  the parameter `replicatorFails`. When it does copy, the copy is a
  `Duplicate` of the stored node: every translation as stored, and no id.
  `cloneByEntityId` returns that copy unsaved. `replicateByEntityId` saves
  it first, so the replicant already has a fresh id when line 116 reads it.
- `NodeType::load(...)->getThirdPartySetting('workbench_moderation',
  'enabled')` is a map from node type to a boolean. An unset setting is
  `false`.
- `$nid = $node->id()` as a condition is `HasId`: the id is present and not 0.
- The PHP code crashes when `Node::load` returns NULL. It also crashes when
  `getTranslation` is asked for a language the node lacks. The template
  form crashes as well when the node's type has no field named `comment`:
  the first `set('comment', ...)` in the loop throws. All three cases are
  the outcome `Fatal`, and nothing is saved in them. The build form of
  such a node still renders, with the comment box unticked.
- The template loop iterates over the translation languages in an order the
  model leaves unspecified (`:|` over the remaining set), as a `foreach`
  over `getTranslationLanguages()` promises no order either.

Behaviour of the code worth knowing:

- Comment status and moderation state are applied to every translation of
  the template; only the title is scoped to one language.
- The moderation flag comes from the form's hidden value. It is not checked
  again against the node type on submit.
- The "Save as Copy" form does not unpublish the copy. Every translation
  keeps its source status (`ReplicantsBlockForm.ReplicantProperties`).
- Submitting the template form unchanged turns a hidden comment status (0)
  into closed (1) (`NodeTemplatesBlockForm.CommentRoundTrip`). The checkbox
  has only two states.
- The "Save as Copy" title default is the title in the language the node is
  shown in, but `setTitle` writes into the copy's default-language
  translation. A node shown in French and submitted unchanged gets its
  French title copied over its default English title
  (`ReplicantsBlockForm.UnchangedSubmitRetitlesDefaultTranslation`).

## Model

| member | source | states |
|---|---|---|
| Content.NodeStorage.constructor | src/Form/NodeTemplatesBlockForm.php:119 | An empty storage satisfies the storage invariant, and the first node saved gets id 1. |
| Content.Node.HasId | src/Form/NodeTemplatesBlockForm.php:75 | The condition `$nid = $node->id()`: true only for a present id, which is then at least 1 (NULL and 0 are false). |
| Content.Node.Duplicate | src/Form/NodeTemplatesBlockForm.php:123 | The replicator's clone differs from the node only in having no id; it is valid iff the node is. |
| Content.NodeStorage.Load | src/Form/NodeTemplatesBlockForm.php:119 | `Node::load` yields a node exactly when the id is stored; the node is in its default language, valid, and carries that id. |
| Content.NodeStorage.Save | src/Form/NodeTemplatesBlockForm.php:140 | Saving a node without an id inserts it under a fresh id not used before; saving one with an id overwrites only that node; the storage invariant is kept. |
| Content.Node.InDefaultLanguage | src/Form/ReplicantsBlockForm.php:109-110 | A loaded node is the stored node with only the handle switched to its default language; its title is the title of its default translation. |
| Content.Node.WithTranslation | src/Form/NodeTemplatesBlockForm.php:125 | Writing into one translation keeps the node's set of languages and its validity. |
| Paths.NatToString | src/Form/NodeTemplatesBlockForm.php:150 | An id concatenated into a path is a non-empty string of decimal digits with no leading zero. |
| Paths.ParseNatToString | src/Form/NodeTemplatesBlockForm.php:150 | Reading the rendered id back gives the id. |
| Paths.RoutePath | src/Form/ReplicantsBlockForm.php:116-124 | A redirect path starts with `/node/` followed by something, and ends in `/latest` exactly for the latest-revision route; RoutePathRoundTrip and RoutePathInjective state the rest. |
| Paths.RoutePathRoundTrip | src/Form/ReplicantsBlockForm.php:116-124 | Both redirect shapes, `/node/<id>` and `/node/<id>/latest`, read back as the route and id they were built from. |
| Paths.RoutePathInjective | src/Form/NodeTemplatesBlockForm.php:150 | Two redirects are the same path exactly when they name the same route and id. |
| NodeTemplatesBlockForm.BuildForm | src/Form/NodeTemplatesBlockForm.php:73-106 | The form is empty exactly when there is no node or it has no id. Otherwise it has exactly the six elements. The title defaults to the node's title. The comment box is ticked exactly when the type has a comment field and the comment status is 2. |
| NodeTemplatesBlockForm.DefaultValues | src/Form/NodeTemplatesBlockForm.php:113-117 | The values submitForm reads from a form submitted unchanged; there are values only when the five elements it reads are present, and the title and comment toggle are those elements' defaults. UnchangedSubmitValues states what they are for a built form. |
| NodeTemplatesBlockForm.UnchangedSubmitValues | src/Form/NodeTemplatesBlockForm.php:74-97 | Submitting the built form unchanged yields the node's id, its shown language, the title in that language, the type's moderation setting, and "has a comment field with status 2". An empty form yields nothing to submit. |
| NodeTemplatesBlockForm.SubmittedComment | src/Form/NodeTemplatesBlockForm.php:117 | The submitted comment value is 1 or 2, and it is 2 exactly when the box is ticked. |
| NodeTemplatesBlockForm.CommentRoundTrip | src/Form/NodeTemplatesBlockForm.php:94-117 | After an unchanged submit, a source comment status of 1 or 2 is kept, and any other status becomes 1. |
| NodeTemplatesBlockForm.ApplyTemplateSettings | src/Form/NodeTemplatesBlockForm.php:127-138 | After the loop over all translations, each one has status 0 and the submitted comment value. Each keeps its title. Each has the `template` moderation state if moderation is on, and keeps its own state otherwise. No language is added or removed. |
| NodeTemplatesBlockForm.TemplateOf | src/Form/NodeTemplatesBlockForm.php:125-138 | The template built from a clone: only its translations differ from the clone, with the same languages; the form's language has the submitted title and the others keep theirs; every translation has status 0 and the submitted comment value. TemplateProperties adds moderation and relates it to the source. |
| NodeTemplatesBlockForm.TemplateProperties | src/Form/NodeTemplatesBlockForm.php:123-138 | The template has no id and the source's languages. Every translation is unpublished and has the submitted comment value. Only the form's language gets the new title; the others keep the source titles. Moderation is `template` everywhere iff the flag is on, and the source's otherwise. |
| NodeTemplatesBlockForm.SubmitForm | src/Form/NodeTemplatesBlockForm.php:111-155 | A missing node or language is fatal, a refused clone saves nothing, and a type without a comment field is fatal after cloning; none of these saves anything or leaves a message or redirect. Otherwise exactly one new node is stored: the template, under a fresh id. The source stays unchanged. The message names the source title read before cloning, the node id, the submitted title and the new id. The redirect is `/node/<new id>`. |
| ReplicantsBlockForm.BuildForm | src/Form/ReplicantsBlockForm.php:73-101 | The form is empty exactly when there is no node or it has no id. Otherwise it has the id, the title defaulting to the node's title, and the save button. The draft box is present exactly when the type is moderated, and then starts ticked. |
| ReplicantsBlockForm.DefaultValues | src/Form/ReplicantsBlockForm.php:108-121 | The values submitForm reads from a form submitted unchanged; there are values only when the id and title elements are present, the title is the title element's default, and a draft is asked for only when the form has a draft checkbox. UnchangedSubmitValues states what they are for a built form. |
| ReplicantsBlockForm.UnchangedSubmitValues | src/Form/ReplicantsBlockForm.php:84-121 | Submitting the built form unchanged submits the node's id and its title in the language the node is shown in. It asks for a draft exactly when the node's type is moderated. |
| ReplicantsBlockForm.UnchangedSubmitRetitlesDefaultTranslation | src/Form/ReplicantsBlockForm.php:84-119 | After an unchanged submit, the copy's default-language title is the title of the language the node was shown in; every other translation of the copy equals the source's. |
| ReplicantsBlockForm.ReplicantOf | src/Form/ReplicantsBlockForm.php:118-123 | The replicant after setTitle and the optional draft state: only its translations differ from the replicator's copy (same id, type, languages, comment-field flag), it is valid, and its own translation has the submitted title. ReplicantProperties states the rest. |
| ReplicantsBlockForm.ReplicantProperties | src/Form/ReplicantsBlockForm.php:118-123 | The copy differs from its source only in its translations, so it keeps the id, node type, default language, handle language and comment-field flag. Its own translation gets the submitted title. It gets the `draft` state iff a draft was asked for, and keeps its state otherwise. Its comment and publication status are the source's. Other translations are untouched. |
| ReplicantsBlockForm.RedirectFor | src/Form/ReplicantsBlockForm.php:116-124 | The redirect names the copy's latest revision for a draft and its canonical page otherwise. |
| ReplicantsBlockForm.SubmitForm | src/Form/ReplicantsBlockForm.php:106-139 | A missing node is fatal, and a refused replication saves nothing and sets no redirect. Otherwise exactly one new node is stored under a fresh id, with the submitted title and, for a draft, the `draft` state. The source stays unchanged. The message names the source title read before the handle was dropped, the node id, the submitted title and the new id. The redirect is `/node/<id>`, or `/node/<id>/latest` for a draft. |

## Left out

- src/Plugin/Block/TemplateNodesBlock.php is not part of this model: it only hands the node from the route context to the form builder.
- Form constructors, `create()` and `getFormId()`: dependency-injection plumbing and constant form ids.
- Replicator internals, such as its events and per-field duplication: the replicator is reduced to "refuses" or "returns a duplicate with every translation and no id".
- Storage internals, such as revisions, UUIDs, validation failures on save and the atomicity of a save: `Save` always succeeds and stores one node.
- Translation of user-facing strings (`$this->t`), `drupal_set_message` and `Url::fromUserInput`/`setRedirectUrl`: the message is kept as its four placeholder values and the redirect as a path string. The two forms' message texts differ only in quote style.
- The unused `entityFormBuilder->getForm` call (src/Form/ReplicantsBlockForm.php:76) and the dead assignment `$test = $moderation` (src/Form/NodeTemplatesBlockForm.php:131): neither has an effect.
- Form values are taken as already typed (a natural-number id, booleans for checkboxes), as the form API delivers them; PHP's loose truthiness of other values is not modelled.
