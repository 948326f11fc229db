# Wordpress content picker field, modelled in Dafny

This project models the two halves of the Dionysos "Wordpress" field.

On the server, `Wordpress.php` does the following:

- It normalises the field's configuration (`getVars`) through the content-type alias table.
- It lists the site's contents of one type (`getWPContents`). A chain of `if` tests picks one of nine listing strategies, and each strategy queries the WordPress store. Categories are walked as a tree, with a depth prefix.
- It answers the modal's search requests (`ajaxCallback`) with an HTML table of radio rows.

In the browser, `wordpress.js` drives a repeatable list of item blocks. Each block has edit and remove buttons. The list has an add box and a search modal, and the modal writes the chosen content back into the block being edited.

The modules follow the program's structure:

| file | module | what it holds |
|---|---|---|
| `php_array.dfy` | `PhpArray` | PHP's ordered arrays (`Assoc`) and `$a[$k] = $v` (`Put`), with their laws |
| `field_vars.dfy` | `FieldVars` | the `$posttypes` alias table and `getVars` |
| `strategies.dfy` | `Strategies` | the nine strategies: query arguments, skip rule, key rule, title and link of each record, the store |
| `category_tree.dfy` | `CategoryTree` | `getWPCategories` as a recursive method, the tree walk it computes, pre-order |
| `content_resolver.dfy` | `ContentResolver` | `getWPContents` dispatch and the loop of the eight flat strategies |
| `ajax_endpoint.dfy` | `AjaxEndpoint` | `ajaxCallback`: validation, `trim`, the zebra-striped table loop |
| `widget_settings.dfy` | `WidgetSettings` | `methods.init` and `$.extend` over the defaults |
| `item_widget.dfy` | `ItemWidget` | the `Wordpress` prototype as a class: blocks, add box, modal, spinner, response |

Modelling choices:

- **PHP values.** Scalars are strings: `null` and `false` read as `""`, and `0` reads as `"0"`. PHP's `empty()` on a scalar is `Empty(s)`, which holds for `""` and `"0"`. A PHP array with string keys is a sequence of `(key, value)` pairs with unique keys, in insertion order.
- **Store and helpers.** The WordPress store is a value (`Strategies.Store`). It has one function per store call, and the categories are a table of records. The escaping, link, translation and unslash helpers are function-valued fields of `AjaxEndpoint.Env`.
- **Browser.** The DOM is replaced by plain state. Each block carries the identity of its element, so `$current` keeps referring to the same element after other blocks are removed. An AJAX reply is a parameter of `Wordpress.Complete`, and the row checked in the modal is a parameter of `Wordpress.Submit`.
- **Behaviour as coded.** The model follows the code:
  - Only categories, menus, pages and posts skip a record without an id. Post types, tags, taxonomies, terms and users have no such guard (`Strategies.Skipped`).
  - `ajaxCallback` checks the posted type against the alias table but dispatches on the type as posted. A plural alias such as `categories` therefore lists posts (`AjaxEndpoint.CategoriesAliasListsPosts`).
- **The category recursion.** The recursive call of `getWPCategories` (`src/Wordpress/Wordpress.php:295`) passes its arguments one position off from the signature at line 260. The model walks the tree as the signature and its documentation describe: accumulator, then the category's id as the new parent, then the prefix extended by `"- "`. The child call gets the options without their `parent` entry, so that each level asks for the children of the category it expands. The call as written is modelled beside it (see Findings).

## Model

| member | source | states |
|---|---|---|
| PhpArray.Put | src/Wordpress/Wordpress.php:289-292 | `$ctn[$item] = ...` keeps keys unique: a new key is appended at the end, and an existing key keeps its position and takes the new value |
| PhpArray.PutMembers | src/Wordpress/Wordpress.php:289-292 | after an assignment the pair is present, every other pair is unchanged, and the keys are the old keys plus the assigned one |
| PhpArray.PutAllAppend | src/Wordpress/Wordpress.php:279-296 | two runs of assignments, one after the other, give the same array as the concatenated run |
| PhpArray.PutAllFrom | src/Wordpress/Wordpress.php:441-456 | every pair of the array after a run of assignments was in the array before or was assigned |
| PhpArray.PutAllLastWins | src/Wordpress/Wordpress.php:441-456 | when a key is assigned several times, the array holds the last value assigned to it |
| PhpArray.PutAllKeys | src/Wordpress/Wordpress.php:441-456 | a key is in the array after a run of assignments iff it was there before or was assigned |
| FieldVars.AliasTargetsCanonical | src/Wordpress/Wordpress.php:27-46 | the alias table's targets are exactly the nine canonical keys |
| FieldVars.CanonicalKeysFixed | src/Wordpress/Wordpress.php:27-46 | every canonical key maps to itself, so looking an alias up twice gives the same key as looking it up once |
| FieldVars.PluralsShareKey | src/Wordpress/Wordpress.php:27-46 | each plural (`posts`, `categories`, ...) maps to the same key as its singular |
| FieldVars.NormaliseType | src/Wordpress/Wordpress.php:190 | the normalised type is always canonical: an alias gives its key, and any other name gives `post` |
| FieldVars.NormaliseIdempotent | src/Wordpress/Wordpress.php:190 | normalising twice is normalising once |
| FieldVars.GetVars | src/Wordpress/Wordpress.php:174-194 | a non-empty scalar value becomes a one-element list, while a list or an empty value passes through; the mode is always `default` or `extended`, and an absent or unknown mode gives `default`; the type is normalised |
| Strategies.EntriesSound | src/Wordpress/Wordpress.php:441-456 | every assignment of a strategy's loop comes from a record that is not skipped; its key is the requested field when that is non-empty and set, otherwise the natural id |
| Strategies.EntriesComplete | src/Wordpress/Wordpress.php:441-456 | every record that is not skipped is assigned its title and link under its key |
| Strategies.ListingSound | src/Wordpress/Wordpress.php:441-456 | the listed array has unique keys, and each entry is the title and link of a record that is not skipped, under the key rule |
| Strategies.ListingComplete | src/Wordpress/Wordpress.php:441-456 | every record that is not skipped has its key listed |
| Strategies.Merge | src/Wordpress/Wordpress.php:428-431 | `array_merge` over string keys: each option overrides its default, and the other defaults stay |
| Strategies.QueryArgs | src/Wordpress/Wordpress.php:374-382 | the arguments are the defaults overridden key by key by the options, with the search term added under the strategy's search keys only when it is non-empty; pages force `post_type = page` |
| Strategies.TagsIgnoreSearch | src/Wordpress/Wordpress.php:527-533 | the tags query is the same whatever the search term |
| Strategies.AsWrittenTaxonomiesDropFallback | src/Wordpress/Wordpress.php:582-595 | with the object `$tax` as the fallback key, no taxonomy is listed when no field is requested; the `category` taxonomy is an example |
| Strategies.TaxonomiesKeyedByName | src/Wordpress/Wordpress.php:582-595 | every taxonomy whose requested field is empty or unset is listed under its name |
| ContentResolver.StrategyFor | src/Wordpress/Wordpress.php:216-235 | each canonical key selects the strategy serving it, and every other name selects posts |
| ContentResolver.DispatchTotal | src/Wordpress/Wordpress.php:216-235 | every strategy is selected by its own key, and only posts is selected by a name other than its key |
| ContentResolver.PluralAliasSelectsPosts | src/Wordpress/Wordpress.php:216-235 | each of the nine plural aliases, reaching the dispatch unnormalised, selects posts |
| ContentResolver.Contents | src/Wordpress/Wordpress.php:238-239 | the contents listed for any type never hold a key twice |
| ContentResolver.ListingStep | src/Wordpress/Wordpress.php:444-455 | one turn of a strategy's loop leaves the array alone for a skipped record, and otherwise assigns the record's entry under its key |
| ContentResolver.ListContents | src/Wordpress/Wordpress.php:422-461 | the loop over the store's records builds exactly the strategy's listing of the records its query returns |
| ContentResolver.GetContents | src/Wordpress/Wordpress.php:206-243 | the dispatch runs the selected strategy: the tree walk from the root for categories, or the flat loop for the others |
| CategoryTree.FetchChildren | src/Wordpress/Wordpress.php:263-275 | a category query returns only categories of the table whose parent is the queried parent and that the store selects |
| CategoryTree.DashesGrow | src/Wordpress/Wordpress.php:290-295 | a child's prefix is its parent's prefix plus `"- "`, so the prefix grows by one unit, two characters, per level |
| CategoryTree.ForestStep | src/Wordpress/Wordpress.php:279-296 | one turn of the category loop skips a category without an id, and otherwise assigns the category's entry, then the entries of its subtree one level deeper |
| CategoryTree.GetCategories | src/Wordpress/Wordpress.php:260-301 | the recursive method adds to `$ctn` the entry of every category of the walk from `$pt`, in walk order, each title prefixed by `$pfx` and one `"- "` per level below |
| CategoryTree.TreePreOrder | src/Wordpress/Wordpress.php:263-295 | for any options, the walk is a pre-order from the parent the first query asks for: every visited category has an id, a top-level one is a child of that parent, and a deeper one is a child of the nearest earlier visit one level up, with nothing shallower in between |
| CategoryTree.PreOrderSteps | src/Wordpress/Wordpress.php:279-295 | a pre-order starts at the top level and goes down at most one level from one visit to the next |
| CategoryTree.TreeRoots | src/Wordpress/Wordpress.php:273-283 | the walk visits at the top level exactly the categories the first query returns that have an id |
| CategoryTree.ForestRoots | src/Wordpress/Wordpress.php:279-296 | the loop's top-level visits are exactly the categories it iterates over that have an id |
| CategoryTree.RootParent | src/Wordpress/Wordpress.php:263-268 | the first query asks for the children of the `parent` option when there is one, and of `$pt` otherwise |
| CategoryTree.ChildQueryAsksForParent | src/Wordpress/Wordpress.php:263-268 | a child call asks for the children of the category it expands, whatever options the walk started with |
| CategoryTree.AsWrittenPinnedParentRepeats | src/Wordpress/Wordpress.php:263-268 | with the options passed on unchanged, a `parent` option makes every level send the same query, whatever its `$pt` |
| CategoryTree.AsWrittenPinnedParentLoops | src/Wordpress/Wordpress.php:263-295 | with `parent` = 0 in the options, the query for the children of category 1 returns category 1 itself; without that entry it returns nothing |
| CategoryTree.AsWrittenChildCallMisthreads | src/Wordpress/Wordpress.php:295 | as written, the child call for category 2 queries parent `"- "`, replaces the accumulator by `"2"` and restarts the prefix empty |
| AjaxEndpoint.TrimLeft | src/Wordpress/Wordpress.php:111 | the result is a suffix of the input, all it cuts is blank, and it does not start with a blank |
| AjaxEndpoint.TrimRight | src/Wordpress/Wordpress.php:111 | the result is a prefix of the input, all it cuts is blank, and it does not end with a blank |
| AjaxEndpoint.TrimSound | src/Wordpress/Wordpress.php:111 | `trim` leaves a slice of its input, and everything around that slice is blank |
| AjaxEndpoint.TrimEnds | src/Wordpress/Wordpress.php:111 | what `trim` leaves is empty or starts and ends with a non-blank |
| AjaxEndpoint.StripeAlternates | src/Wordpress/Wordpress.php:105-108 | the first row is striped `alternate`, and each row's stripe differs from the previous one |
| AjaxEndpoint.StripeStep | src/Wordpress/Wordpress.php:108 | flipping `$alt` before a row gives that row its stripe |
| AjaxEndpoint.RowClassStripes | src/Wordpress/Wordpress.php:115 | the class each row is rendered with alternates between `found-posts alternate` and `found-posts`, starting with the former |
| AjaxEndpoint.ShownTitleFallback | src/Wordpress/Wordpress.php:111 | a blank title, or any title that trims to `0`, shows the "no title" text; any other title is shown as stored, padding included; nothing else is ever shown |
| AjaxEndpoint.RowsStep | src/Wordpress/Wordpress.php:107-124 | one turn of the loop appends the row of the next result, in array order, with that row's class |
| AjaxEndpoint.RenderTable | src/Wordpress/Wordpress.php:96-127 | the loop renders the header, one row per result in order with alternating stripes, and the table's end |
| AjaxEndpoint.AjaxCallback | src/Wordpress/Wordpress.php:75-130 | the callback answers exactly as the specification function `Ajax`: `-1`, the "no items" error, or the table |
| AjaxEndpoint.RejectsExactlyUnknownTypes | src/Wordpress/Wordpress.php:81-86 | the answer is `-1` iff the posted type is not in the alias table, whatever the store holds |
| AjaxEndpoint.NoItemsExactlyWhenEmpty | src/Wordpress/Wordpress.php:89-94 | for an accepted type the answer is the "no items" error iff nothing is listed |
| AjaxEndpoint.MissingTypeIsPost | src/Wordpress/Wordpress.php:81 | a request without a type is answered as one for `post` |
| AjaxEndpoint.PluralAliasListsPosts | src/Wordpress/Wordpress.php:84-89 | every accepted name that is not a canonical key is answered as `post` |
| AjaxEndpoint.CategoriesAliasListsPosts | src/Wordpress/Wordpress.php:84-89 | `categories` is accepted and answered with the posts table |
| WidgetSettings.Extend | src/Resources/assets/js/wordpress.js:394 | `$.extend`: each option that is not `undefined` replaces the target's value, and every other value is kept |
| WidgetSettings.ExtendIdempotent | src/Resources/assets/js/wordpress.js:392-395 | extending again with the same options changes nothing |
| WidgetSettings.AbsentOptionKeepsDefault | src/Resources/assets/js/wordpress.js:373-395 | an option that is absent or `undefined` keeps its default |
| WidgetSettings.Init | src/Resources/assets/js/wordpress.js:368-399 | an empty selection gives `false` (`None`); otherwise every widget is built with the defaults overridden by the options |
| ItemWidget.Without | src/Resources/assets/js/wordpress.js:231 | removing an element keeps exactly the other blocks |
| ItemWidget.WithoutCutsOne | src/Resources/assets/js/wordpress.js:217-234 | removing a block cuts exactly that block out of the list, and the others keep their order |
| ItemWidget.Rewrite | src/Resources/assets/js/wordpress.js:298-301 | writing into one element changes that block's content only |
| ItemWidget.Wordpress.constructor | src/Resources/assets/js/wordpress.js:95-125 | the widget starts with the rendered blocks, no current block, the modal uninitialised and hidden, and the add box set by the button rule |
| ItemWidget.Wordpress.UpdateButtons | src/Resources/assets/js/wordpress.js:239-252 | the add box is shown iff the list is empty or items are multiple, so it depends only on the count and `multiple` |
| ItemWidget.Wordpress.AddBlock | src/Resources/assets/js/wordpress.js:171-188 | exactly one block with an empty value is appended, the others are unchanged, and the add box is recomputed |
| ItemWidget.Wordpress.RemoveBlock | src/Resources/assets/js/wordpress.js:217-234 | the enclosing block alone is removed, the others keep their order, and the add box is recomputed |
| ItemWidget.Wordpress.EditBlock | src/Resources/assets/js/wordpress.js:194-211 | the enclosing block becomes current; the modal's handlers are bound once only, whatever the number of edits; the modal opens and a search is sent |
| ItemWidget.Wordpress.ModalInit | src/Resources/assets/js/wordpress.js:269-314 | binds the handlers once and marks the modal initialised |
| ItemWidget.Wordpress.ModalOpen | src/Resources/assets/js/wordpress.js:319-325 | shows the overlay and the modal, then sends a search |
| ItemWidget.Wordpress.ModalClose | src/Resources/assets/js/wordpress.js:257-264 | empties the response and hides the modal and the overlay; the search input is left as typed |
| ItemWidget.Wordpress.SendRequest | src/Resources/assets/js/wordpress.js:330-352 | posts the search input with type `post` and the modal's action, and starts the spinner |
| ItemWidget.Wordpress.Complete | src/Resources/assets/js/wordpress.js:352-364 | the spinner stops on every outcome; a transport failure shows the error text, and a reply shows its data, even when the reply reports a failure |
| ItemWidget.Wordpress.TypeSearch | src/Resources/assets/js/wordpress.js:335 | the search input holds what was typed |
| ItemWidget.Wordpress.KeyUp | src/Resources/assets/js/wordpress.js:275-279 | Escape (27) closes an initialised modal; any other key changes nothing |
| ItemWidget.Wordpress.KeyPress | src/Resources/assets/js/wordpress.js:281-286 | Enter (13) sends a search; any other key changes nothing |
| ItemWidget.Wordpress.CloseClick | src/Resources/assets/js/wordpress.js:272 | a click on the overlay (or the close button) closes an initialised modal |
| ItemWidget.Wordpress.SearchClick | src/Resources/assets/js/wordpress.js:309 | a click on the search button sends a search |
| ItemWidget.Wordpress.Submit | src/Resources/assets/js/wordpress.js:288-306 | with a row checked, the value, the url (href and text) and the title are written into the current block and the modal closes; with none checked, nothing changes |

## Left out

- The WordPress store calls are inputs, not code: `get_categories`, `get_posts`, `wp_get_nav_menus`, `get_post_types`, `get_the_tags`, `get_taxonomies`, `get_terms`, `get_users` and `is_wp_error`. So are the link helpers, `esc_attr`, `esc_html`, `wp_unslash` and the translations. They are fields of `Strategies.Store` and `AjaxEndpoint.Env`, and their internals are not modelled.
- `wp_send_json_error` ends the request. It is the reply `JsonError`, and the JSON encoding is not modelled.
- The `exclude === 'current'` branch of `getWPContents` reads a `$post` that is never defined, so it has no behaviour to model.
- `getDefaults`, the asset fields (`$adminscripts`, `$script`, `$style`, `$template`) and the base field's lifecycle are not modelled.
- A category table with a cycle makes the PHP walk run forever. So do options with a `parent` entry, once that parent has a child with an id (see Findings). The model's child call drops the `parent` option. It also removes the expanded category from the table the subtree is drawn from, so every walk ends. On an acyclic table that removal changes nothing, because no query below a category returns that category.
- The modelled `get_categories` returns the children in table order. The model does not capture the `orderby` and `order` arguments; they go only to the store's filter.
- The taxonomies strategy keys its entries by the taxonomy object `$tax` when the field is empty or unset (see Findings). The model lists the taxonomy under its `name` there. `AsWrittenTaxonomyEntries` models the loop as written. The model reads `get_taxonomy($tax)` as the record itself, and it reads the label `labels->name` as the property `labels.name`.
- `in_array` in `getVars` compares loosely, so a non-string mode such as `true` is kept. The model takes modes as strings, where the comparison is exact.
- `array_merge` renumbers integer keys, and PHP turns numeric-string keys into integers. The model keeps every key a string. That does not change which key wins or the order of the keys.
- The `$.fn.dionysosWordpress` method router is not modelled.
- The constructor returns early when `wp.template` is missing. No handler is bound then, so no operation of the model can run, and the model starts from the bound widget.
- The removal animation (the background colour, then the fade) is not modelled: a block is removed when the animation completes. A second click during the fade removes nothing more, and the model gives that too.
- The focus given to the search input by `_modal_init` is not modelled.
- The template a new block is rendered from is not part of this model. A new block has an empty value and url and a placeholder title given to the constructor.
- The submit handler looks up the url and title in `td.title[data-l]`, but the server renders `td.found-title` without `data-l`. The checked row is an abstract `(value, url, text)` selection, so the model does not capture that the lookup finds nothing.
- The AJAX transport is not modelled, nor the order of replies to overlapping requests. The code does not guard against a stale reply overwriting a newer one, and the model does not either.
- AjaxEndpoint.RowHtml: the escaping is stated by the row's definition only. The key goes through `esc_attr` in the value attribute and raw into the id; the title goes through `esc_html`; the link is raw. No separate lemma restates this.

## Findings

| source | as written | input that shows it | evidently intended | confidence | as-written member | corrected member |
|---|---|---|---|---|---|---|
| src/Wordpress/Wordpress.php:295 | `getWPCategories($options, $field, $ctn, $cat->cat_ID, $pfx.'- ')` passes the accumulator as `$search`, the id as `$ctn` and the prefix as `$pt`, and leaves `$pfx` empty | a category `Sports` with id 2. Its children are asked for with parent `"- "`. Inside the child call `$ctn` is the integer 2: writing `$ctn[$item]` there fails with "Cannot use a scalar value as an array", and returning 2 from a function declared `: array` is a TypeError, so the listing fails | `getWPCategories($options, $field, $search, $ctn, $cat->cat_ID, $pfx.'- ')`: the children of 2 are added to the same array with prefix `"- "` | high, not executed | CategoryTree.AsWrittenChildCallMisthreads | CategoryTree.GetCategories |
| src/Wordpress/Wordpress.php:263-268 | the child call at line 295 passes `$options` on unchanged, and `array_merge` lets its `parent` entry override `$pt` at every level | options `parent` = 0 and a category `News` with id 1 under 0. With the arguments in order, the child call for News asks for the children of 0 again, gets News, and recurses without end | the child levels ask for the children of the category they expand: the `parent` option applies to the first level only | medium, not executed | CategoryTree.AsWrittenPinnedParentLoops | CategoryTree.TreePreOrder |
| src/Wordpress/Wordpress.php:582-594 | `get_taxonomies($args, 'objects', 'or')` yields objects, and when the field is empty or unset the key is the object `$tax`. PHP refuses an object as an array key ("Illegal offset type": a warning and no entry in PHP 7, a TypeError in PHP 8) | no field requested, and a site with the `category` taxonomy: nothing is listed | each taxonomy listed under its name | high, not executed | Strategies.AsWrittenTaxonomiesDropFallback | Strategies.TaxonomiesKeyedByName |
