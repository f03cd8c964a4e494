# A Dafny model of the site's contrib logic

This project models the parts of a Drupal site's contributed modules whose
behaviour can be stated exactly, and proves properties of that model:

- **geofield**: the conversion between decimal degrees and degree/minute/second
  points (`DmsConverter`, `DmsPoint`), and the field item that derives its
  centroid, bounding box, geohash and "lat,lon" columns from a parsed geometry
  (`GeofieldItem`).
- **geofield_map**: the assembly of GeoJSON Feature objects (section 3.2 of
  RFC 7946) from field items, the zoom and max-zoom validators, and the map-type
  filter of the map settings (`GeofieldMapFieldTrait`). Also the widget that
  turns the lon/lat inputs into a WKT point, and the Google map formatter's
  `viewElements`: its re-entrancy flag, its infowindow descriptions and its
  empty-map rule.
- **spamspan**: the text filter that rewrites e-mail addresses, `addr[url|text]`
  forms and `mailto:` anchors (section 2 of RFC 2368) into nested spans or a
  contact-form link, including its sticky `textAltered` flag. Also the settings
  trait that reads settings with defaults and flattens the `use_form` group.
- **search_api_sorts**: the `SortsField` value object, the `:`/`---` config-id
  escape, the manager's active, enabled and default sorts, the sorts block's
  links, and the form that manages the sort fields.
- **raven**: the logger that forwards accepted log levels to a Sentry client.
- **display_field_copy**: the DS field that copies another field's display,
  and the form that creates it.

External services are parameters. geoPHP, entity storage, the request, module
hooks, the renderer, the regular expressions, Xss filtering, strip_tags,
parse_url, the URL codecs, base64 and translation are passed in as functions
or data. Objects that the PHP code updates in place are Dafny classes with
`modifies` clauses. Loops are methods proved equal to a specification
function, and the properties are proved about those functions. PHP ordered
arrays are sequences of key/value pairs (module `Php`, with laws in
`PhpArrayLaws`). In these sequences, an assignment overwrites an existing key
in place or appends a new one, and `+` keeps the left operand's entries.

## Model

| member | source | states |
|---|---|---|
| DmsConverter.PhpRound | docroot/modules/contrib/geofield/src/DmsConverter.php:44-45 | PHP `round` to an integer: the result is within half a unit of the input, and a half rounds away from zero |
| DmsConverter.ToComponent | docroot/modules/contrib/geofield/src/DmsConverter.php:29-45 | one axis of `decimalToDms`. The orientation letter is chosen by sign. Degrees are the integer part of the absolute value, minutes are an integer in [0, 59], seconds an integer in [0, 60]. The magnitude the component denotes is within half a second of arc of the input. Minutes are exactly the floor of the remainder times 60, and seconds exactly PHP's `round` of what is left times 60 |
| DmsConverter.ToDecimal | docroot/modules/contrib/geofield/src/DmsConverter.php:16-20 | degrees + minutes/60 + seconds/3600, negated exactly when the orientation is the negative letter ('W' or 'S'); any other letter gives a positive value |
| DmsConverter.DecimalToDms | docroot/modules/contrib/geofield/src/DmsConverter.php:28-59 | a fresh point whose longitude component comes from the first argument (E/W) and whose latitude component comes from the second (N/S) |
| DmsConverter.DmsToDecimal | docroot/modules/contrib/geofield/src/DmsConverter.php:13-22 | the pair [lon, lat], each axis converted with its own negative letter |
| DmsConverter.OrientationSign | docroot/modules/contrib/geofield/src/DmsConverter.php:29-30 | 'W' exactly for negative longitudes and 'S' exactly for negative latitudes; zero is 'N' |
| DmsConverter.RoundTrip | docroot/modules/contrib/geofield/src/DmsConverter.php:13-45 | converting to DMS and back moves a value by at most 1/7200 degree (half a second of arc) |
| DmsConverter.RoundTripPoint | docroot/modules/contrib/geofield/src/DmsConverter.php:13-59 | the same half-second bound for both axes of a whole point built by `decimalToDms` |
| DmsConverter.SeventeenDegreesNorth | docroot/modules/contrib/geofield/src/Plugin/Field/FieldFormatter/LatLonFormatter.php:107-108 | latitude 17.76972 is N 17° 46' 11" |
| DmsConverter.SixtySecondsNotCarried | docroot/modules/contrib/geofield/src/DmsConverter.php:41-45 | seconds that round up to 60 stay 60 and are not carried into the minutes (0.99998 gives 0° 59' 60") |
| DmsPoints.DmsPoint.constructor | docroot/modules/contrib/geofield/src/DmsPoint.php:29-32 | the first argument is stored as lon and the second as lat |
| DmsPoints.DmsPoint.Get | docroot/modules/contrib/geofield/src/DmsPoint.php:43-45 | "lon" and "lat" give the stored components; any other name gives NULL |
| DmsPoints.DmsPoint.SetLon | docroot/modules/contrib/geofield/src/DmsPoint.php:57-59 | replaces lon and leaves lat unchanged |
| DmsPoints.DmsPoint.SetLat | docroot/modules/contrib/geofield/src/DmsPoint.php:71-73 | replaces lat and leaves lon unchanged |
| GeofieldItems.Substr0 | docroot/modules/contrib/geofield/src/Plugin/Field/FieldType/GeofieldItem.php:220 | the stored geohash is a prefix of the geometry's geohash, exactly `length` long unless the hash is shorter |
| GeofieldItems.GeofieldItem.constructor | docroot/modules/contrib/geofield/src/Plugin/Field/FieldType/GeofieldItem.php:121-157 | a new item has every property NULL |
| GeofieldItems.GeofieldItem.IsEmpty | docroot/modules/contrib/geofield/src/Plugin/Field/FieldType/GeofieldItem.php:187-190 | the item is non-empty exactly when its value is set and is not the empty string ("0" is a value) |
| GeofieldItems.GeofieldItem.PopulateComputedValues | docroot/modules/contrib/geofield/src/Plugin/Field/FieldType/GeofieldItem.php:206-223 | the value is kept. When it does not load, nothing changes. Otherwise geo_type is the geometry type, lon/lat the centroid, left/top/right/bottom the bounding box, geohash the truncated hash, and latlon "centroid Y,centroid X" |
| GeofieldItems.GeofieldItem.SetValue | docroot/modules/contrib/geofield/src/Plugin/Field/FieldType/GeofieldItem.php:198-201 | stores every given property, then the derived ones are recomputed from the new value exactly as above |
| GeofieldMapField.Describe | docroot/modules/contrib/geofield_map/src/GeofieldMapFieldTrait.php:970 | `description[delta]` if set, else `description[0]` if set, else NULL; both directions of when it is NULL |
| GeofieldMapField.GetGeoJsonData | docroot/modules/contrib/geofield_map/src/GeofieldMapFieldTrait.php:951-977 | the loop, with its geometry carried from item to item, computes exactly the feature list of the specification function |
| GeofieldMapField.ItemGeometry | docroot/modules/contrib/geofield_map/src/GeofieldMapFieldTrait.php:955-961 | one item updates the carried geometry: a field value or a string matching the POINT pattern is parsed again, anything else leaves the previous geometry in place |
| GeofieldMapField.FeaturesShape | docroot/modules/contrib/geofield_map/src/GeofieldMapFieldTrait.php:963-972 | from any item on, at most one feature per remaining item, each of type "Feature" and carrying the additional data unchanged |
| GeofieldMapField.GeoJsonDataShape | docroot/modules/contrib/geofield_map/src/GeofieldMapFieldTrait.php:952-976 | no items give no features; otherwise at most one feature per item, each a "Feature" with the additional data |
| GeofieldMapField.OneFeaturePerLoadedItem | docroot/modules/contrib/geofield_map/src/GeofieldMapFieldTrait.php:953-974 | when every item is a field item whose value loads, feature k is item k's GeoJSON with description k, in order |
| GeofieldMapField.StaleGeometryReEmitted | docroot/modules/contrib/geofield_map/src/GeofieldMapFieldTrait.php:953-962 | an item that matches neither branch keeps the previous geometry: an unparsable string after a point re-emits that point with its own description |
| GeofieldMapField.NothingBeforeFirstParse | docroot/modules/contrib/geofield_map/src/GeofieldMapFieldTrait.php:953-962 | before any item parses, items matching neither branch emit nothing |
| GeofieldMapField.PointLiteral | docroot/modules/contrib/geofield_map/src/GeofieldMapFieldTrait.php:959 | "POINT (1 2)" passes the POINT test |
| GeofieldMapField.GarbageLiteral | docroot/modules/contrib/geofield_map/src/GeofieldMapFieldTrait.php:959 | "garbage" fails the POINT test |
| GeofieldMapField.SiblingValues | docroot/modules/contrib/geofield_map/src/GeofieldMapFieldTrait.php:825-829 | walking `#parents` without its last entry reaches the values the specification function reaches |
| GeofieldMapField.ZoomLevelValidate | docroot/modules/contrib/geofield_map/src/GeofieldMapFieldTrait.php:823-837 | an error exactly when the zoom is below the sibling 'min' or above the sibling 'max', with PHP's comparison of integers and NULL |
| GeofieldMapField.MaxZoomLevelValidate | docroot/modules/contrib/geofield_map/src/GeofieldMapFieldTrait.php:844-857 | an error exactly when the max zoom is truthy and not above the sibling 'min' |
| GeofieldMapField.ZoomErrorWhenSet | docroot/modules/contrib/geofield_map/src/GeofieldMapFieldTrait.php:834 | with all three levels set, the zoom error means "outside [min, max]" |
| GeofieldMapField.MaxZoomErrorCases | docroot/modules/contrib/geofield_map/src/GeofieldMapFieldTrait.php:854 | a max of 0, or a missing min, never errors; otherwise the error is max <= min |
| GeofieldMapField.ZoomAboveMissingMax | docroot/modules/contrib/geofield_map/src/GeofieldMapFieldTrait.php:833-834 | with no 'max' sibling, any non-zero zoom counts as above it and is rejected |
| GeofieldMapField.KeptTypeIds | docroot/modules/contrib/geofield_map/src/GeofieldMapFieldTrait.php:924-926 | a key is kept exactly when its value is not the integer 0; never more keys than entries |
| GeofieldMapField.FilterTypeIds | docroot/modules/contrib/geofield_map/src/GeofieldMapFieldTrait.php:924-926 | the filter loop keeps those keys in their original order |
| GeofieldMapField.MapSettings.constructor | docroot/modules/contrib/geofield_map/src/GeofieldMapFieldTrait.php:919 | map settings with no API key yet, holding the given type-id checkboxes and icon path |
| GeofieldMapField.MapSettings.PreProcessMapSettings | docroot/modules/contrib/geofield_map/src/GeofieldMapFieldTrait.php:919-934 | stores the API key, replaces the type-id checkboxes by the kept ids, and makes a non-empty local icon path absolute |
| GeofieldMapWidget.MassageFormValues | docroot/modules/contrib/geofield_map/src/Plugin/Field/FieldWidget/GeofieldMapWidget.php:656-669 | same deltas, other entries untouched. Each 'value' becomes the WKT point when lon and lat are both non-empty and numeric, and "" otherwise |
| GeofieldMapWidget.CheckComponents | docroot/modules/contrib/geofield_map/src/Plugin/Field/FieldWidget/GeofieldMapWidget.php:658-663 | the inner component loop lets a value through exactly when both its lon and lat are set, non-empty and numeric |
| GeofieldMapWidget.ZeroComponentClears | docroot/modules/contrib/geofield_map/src/Plugin/Field/FieldWidget/GeofieldMapWidget.php:659 | because of `empty()`, a longitude of "0" yields "" |
| GeofieldMapWidget.NumericComponentsBuildPoint | docroot/modules/contrib/geofield_map/src/Plugin/Field/FieldWidget/GeofieldMapWidget.php:664-665 | two usable components build the point from (lon, lat), longitude first |
| GeofieldMapWidget.InitialLatLon | docroot/modules/contrib/geofield_map/src/Plugin/Field/FieldWidget/GeofieldMapWidget.php:625-629 | keys lon then lat; each is the item's value when set, else the widget's default for it |
| GeofieldGoogleMapFormatter.ValueTexts | docroot/modules/contrib/geofield_map/src/Plugin/Field/FieldFormatter/GeofieldGoogleMapFormatter.php:531-537 | one description per value: its 'value', or "" when unset |
| GeofieldGoogleMapFormatter.Descriptions | docroot/modules/contrib/geofield_map/src/Plugin/Field/FieldFormatter/GeofieldGoogleMapFormatter.php:517-539 | the description loop, with its `break`, computes the specification function |
| GeofieldGoogleMapFormatter.DescriptionRules | docroot/modules/contrib/geofield_map/src/Plugin/Field/FieldFormatter/GeofieldGoogleMapFormatter.php:520-538 | '#rendered_entity' and 'title' give exactly one description. A field gives one per value with multivalue_split and otherwise at most one, each its 'value' or "" |
| GeofieldGoogleMapFormatter.EmptyOrMap | docroot/modules/contrib/geofield_map/src/Plugin/Field/FieldFormatter/GeofieldGoogleMapFormatter.php:543-559 | the empty div exactly when there is no data and the behaviour is not the string "2". Its text is the message only for the string "1". Otherwise a FeatureCollection of exactly the data |
| GeofieldGoogleMapFormatter.StrictEmptyBehaviour | docroot/modules/contrib/geofield_map/src/Plugin/Field/FieldFormatter/GeofieldGoogleMapFormatter.php:543-548 | the comparisons are strict: the integers 2 and 1 act like any other value |
| GeofieldGoogleMapFormatter.ViewState.constructor | docroot/modules/contrib/geofield_map/src/Plugin/Field/FieldFormatter/GeofieldGoogleMapFormatter.php:492 | no view is in progress at first |
| GeofieldGoogleMapFormatter.ViewState.ViewElements | docroot/modules/contrib/geofield_map/src/Plugin/Field/FieldFormatter/GeofieldGoogleMapFormatter.php:488-566 | during a view in progress: nothing. Otherwise the empty-or-map element over the features of the chosen descriptions. The flag is back to its old value on every path |
| Spamspan.EncodeHeaders | docroot/modules/contrib/spamspan/src/Plugin/Filter/FilterSpamspan.php:317-331 | one readable header per mailto header, in order |
| Spamspan.FilterSpamspan.constructor | docroot/modules/contrib/spamspan/src/Plugin/Filter/FilterSpamspan.php:127 | a new filter has not altered any text |
| Spamspan.FilterSpamspan.EncodeHeaderList | docroot/modules/contrib/spamspan/src/Plugin/Filter/FilterSpamspan.php:320-328 | the header loop encodes every header as the specification does |
| Spamspan.FilterSpamspan.Output | docroot/modules/contrib/spamspan/src/Plugin/Filter/FilterSpamspan.php:273-362 | the span markup or the form link, and `textAltered` becomes set by span output and is never reset |
| Spamspan.FilterSpamspan.CallbackMailto | docroot/modules/contrib/spamspan/src/Plugin/Filter/FilterSpamspan.php:193-228 | output for a mailto anchor with its split query as headers and its other attributes as extra |
| Spamspan.FilterSpamspan.CallbackWithOptionsAsWritten | docroot/modules/contrib/spamspan/src/Plugin/Filter/FilterSpamspan.php:230-248 | output for an address with options, with the string '' as headers, as the code passes it |
| Spamspan.FilterSpamspan.CallbackWithOptions | docroot/modules/contrib/spamspan/src/Plugin/Filter/FilterSpamspan.php:230-248 | output for an address with options: the first option overrides the form URL and the second the link text; no headers |
| Spamspan.FilterSpamspan.CallbackBare | docroot/modules/contrib/spamspan/src/Plugin/Filter/FilterSpamspan.php:250-252 | output for a bare address with no headers and no options |
| Spamspan.FilterSpamspan.Callback | docroot/modules/contrib/spamspan/src/Plugin/Filter/FilterSpamspan.php:150-154 | each pass's match goes to the callback of its pattern; a with-options match goes to the corrected callback of the Findings row, not the one as written |
| Spamspan.FilterSpamspan.ReplacePiece | docroot/modules/contrib/spamspan/src/Plugin/Filter/FilterSpamspan.php:150-154 | literal text is kept, a match is replaced, and only a match in span mode sets the flag |
| Spamspan.FilterSpamspan.AppendReplacement | docroot/modules/contrib/spamspan/src/Plugin/Filter/FilterSpamspan.php:150-154 | one match of a pass: what is already output plus the rest of the pass equals what is output after this piece plus the rest after it; the flag is set only by a match in span mode |
| Spamspan.FilterSpamspan.ReplaceMatches | docroot/modules/contrib/spamspan/src/Plugin/Filter/FilterSpamspan.php:150-154 | one `preg_replace_callback` pass; the flag is set exactly when span mode meets a match |
| Spamspan.FilterSpamspan.RestoreImageList | docroot/modules/contrib/spamspan/src/Plugin/Filter/FilterSpamspan.php:156-159 | each saved image replaces the first remaining placeholder, in order |
| Spamspan.FilterSpamspan.Process | docroot/modules/contrib/spamspan/src/Plugin/Filter/FilterSpamspan.php:139-180 | the three passes over the text with images swapped out, then restored, using the corrected with-options callback of the Findings row. The flag is set exactly by a span-mode match. The obfuscate library, plus the at-sign one with use_graphic, is attached exactly when the flag is set |
| Spamspan.DotsHidden | docroot/modules/contrib/spamspan/src/Plugin/Filter/FilterSpamspan.php:308-312 | with dot replacement on, no '.' of the name or domain is shown |
| Spamspan.MailtoHeadersRule | docroot/modules/contrib/spamspan/src/Plugin/Filter/FilterSpamspan.php:201-208 | no headers exactly when the query is empty or starts with '&' or ';'; otherwise the split query, no header holding a separator |
| Spamspan.ReplacedWithoutMatches | docroot/modules/contrib/spamspan/src/Plugin/Filter/FilterSpamspan.php:150-154 | a pass without matches hands back its text |
| Spamspan.ImagesRoundTrip | docroot/modules/contrib/spamspan/src/Plugin/Filter/FilterSpamspan.php:145-159 | restoring the images in order undoes swapping them out, when no text can be mistaken for the placeholder |
| Spamspan.ProcessWithoutAddresses | docroot/modules/contrib/spamspan/src/Tests/FilterSpamspanUnitTest.php:97 | a text without addresses comes back unchanged and does not set the flag |
| Spamspan.DefaultFormPatternLink | docroot/modules/contrib/spamspan/src/Plugin/Filter/FilterSpamspan.php:41 | the default form pattern yields a link to the form URL with `?goto=` and the encoded address |
| Spamspan.WithOptionsHeaderFinding | docroot/modules/contrib/spamspan/src/Plugin/Filter/FilterSpamspan.php:247 | in span mode the with-options callback as written emits an empty `(h)` span. The corrected one renders what the bare-address callback renders |
| Spamspan.WithOptionsFormModeAgrees | docroot/modules/contrib/spamspan/src/Plugin/Filter/FilterSpamspan.php:275-299 | in form mode the two with-options versions agree and give the substituted pattern |
| SpamspanSettings.Setting | docroot/modules/contrib/spamspan/src/Plugin/SpamspanSettingsFormTrait.php:118 | non-NULL exactly when the key holds a non-NULL value, and then that value |
| SpamspanSettings.SettingsPlugin.constructor | docroot/modules/contrib/spamspan/src/Plugin/SpamspanSettingsFormTrait.php:113-119 | a plugin with its settings and defaults, defaults not yet merged |
| SpamspanSettings.SettingsPlugin.MergeDefaults | docroot/modules/contrib/spamspan/src/Plugin/SpamspanSettingsFormTrait.php:115-117 | the settings become settings + defaults (left wins) and are marked merged |
| SpamspanSettings.SettingsPlugin.GetSetting | docroot/modules/contrib/spamspan/src/Plugin/SpamspanSettingsFormTrait.php:113-119 | merges only when the plugin can, has not yet, and the key is missing; returns the value read afterwards |
| SpamspanSettings.SettingReadCases | docroot/modules/contrib/spamspan/src/Plugin/SpamspanSettingsFormTrait.php:115-118 | a stored key reads as stored; a missing key reads the default while merging is pending and NULL otherwise |
| SpamspanSettings.UseFormGroup | docroot/modules/contrib/spamspan/src/Plugin/SpamspanSettingsFormTrait.php:134 | the `use_form` group, present exactly when the settings hold it as an array |
| SpamspanSettings.FilterFormState.constructor | docroot/modules/contrib/spamspan/src/Plugin/SpamspanSettingsFormTrait.php:133 | form state holding the filter's settings value |
| SpamspanSettings.FilterFormState.ValidateSettingsForm | docroot/modules/contrib/spamspan/src/Plugin/SpamspanSettingsFormTrait.php:132-140 | on an array, succeeds exactly when `use_form` is an array and then writes back the flattened settings; on NULL or false the value becomes the integer 0 (`NULL + NULL`); every other case is PHP's fatal error and nothing changes |
| SpamspanSettings.FlattenedSettings | docroot/modules/contrib/spamspan/src/Plugin/SpamspanSettingsFormTrait.php:137-139 | `use_form` is gone and every key of the group present. A key at both levels keeps its top-level value, and the other top-level entries are kept first, in order |
| SpamspanSettings.CompleteForm.constructor | docroot/modules/contrib/spamspan/src/Plugin/SpamspanSettingsFormTrait.php:124 | a form holding its `#validate` list |
| SpamspanSettings.CompleteForm.ProcessSettingsForm | docroot/modules/contrib/spamspan/src/Plugin/SpamspanSettingsFormTrait.php:124-127 | appends `validateSettingsForm` to `#validate` and returns the element unchanged |
| SortsFields.NormalizeOrder | docroot/modules/contrib/search_api_sorts/src/SortsField.php:64 | always 'asc' or 'desc', and 'desc' exactly for the exact string 'desc' |
| SortsFields.SortsField.constructor | docroot/modules/contrib/search_api_sorts/src/SortsField.php:32-35 | stores the field and the normalised order |
| SortsFields.SortsField.SetFieldName | docroot/modules/contrib/search_api_sorts/src/SortsField.php:43-45 | changes only the field |
| SortsFields.SortsField.SetOrder | docroot/modules/contrib/search_api_sorts/src/SortsField.php:63-65 | changes only the order, normalised |
| SortsFields.SortsField.GetOrder | docroot/modules/contrib/search_api_sorts/src/SortsField.php:73-75 | always 'asc' or 'desc' |
| SortsFields.NormalizeOrderCases | docroot/modules/contrib/search_api_sorts/tests/src/Unit/SortsFieldTest.php:40-50 | NULL, 'aaa', 'owl' and 'DESC' give 'asc'; 'desc' gives 'desc' |
| SortsFields.SettersExample | docroot/modules/contrib/search_api_sorts/tests/src/Unit/SortsFieldTest.php:52-54 | setting field then order leaves both as set |
| ConfigIdEscape.EscapedConfigId | docroot/modules/contrib/search_api_sorts/src/ConfigIdEscapeTrait.php:18-20 | an escaped id contains no ':' |
| ConfigIdEscape.EscapeWithoutColon | docroot/modules/contrib/search_api_sorts/src/ConfigIdEscapeTrait.php:19 | an id without ':' is returned unchanged |
| ConfigIdEscape.RoundTrip | docroot/modules/contrib/search_api_sorts/src/ConfigIdEscapeTrait.php:18-27 | for ids without '-', unescaping the escaped id gives the id back |
| ConfigIdEscape.DashBreaksRoundTrip | docroot/modules/contrib/search_api_sorts/src/ConfigIdEscapeTrait.php:25-27 | with a '-' before a ':' the round trip fails: "a-:" comes back as "a:-" |
| ConfigIdEscape.ViewsPagePair | docroot/modules/contrib/search_api_sorts/tests/src/Functional/SortsFunctionalBase.php:61-62 | the test's views page id and its escaped form map to each other |
| ConfigIdEscape.EscapeAround | docroot/modules/contrib/search_api_sorts/src/ConfigIdEscapeTrait.php:19 | "a:b" escapes to "a---b" when a and b have no ':' |
| WeightSort.InsertByWeight | docroot/modules/contrib/search_api_sorts/src/Form/ManageSortFieldsForm.php:245-248 | inserting into a weight-ordered array keeps it ordered and adds exactly the new entry |
| WeightSort.SortByWeight | docroot/modules/contrib/search_api_sorts/src/Plugin/Block/SearchApiSortsBlock.php:63-66 | `uasort` by weight: ordered by non-decreasing weight and a permutation of its input |
| WeightSort.PermutationKeepsUniqueKeys | docroot/modules/contrib/search_api_sorts/src/Plugin/Block/SearchApiSortsBlock.php:63-66 | a permutation of an array with distinct keys has distinct keys |
| WeightSort.SortKeepsRows | docroot/modules/contrib/search_api_sorts/src/Form/ManageSortFieldsForm.php:245-248 | sorting keeps the length, the entries and the keys |
| SortsManager.ActiveOrder | docroot/modules/contrib/search_api_sorts/src/SearchApiSortsManager.php:57 | always 'asc' or 'desc' |
| SortsManager.ActiveSort | docroot/modules/contrib/search_api_sorts/src/SearchApiSortsManager.php:56-65 | the request's field as-is with its order. The alter hook applies only when the field is truthy, and the order stays 'asc' or 'desc' after it |
| SortsManager.ActiveOrderCases | docroot/modules/contrib/search_api_sorts/tests/src/Unit/SearchApiSortsManagerTest.php:88-95 | the request order is compared case-insensitively, unlike `setOrder` |
| SortsManager.GetActiveSort | docroot/modules/contrib/search_api_sorts/src/SearchApiSortsManager.php:56-65 | a fresh valid SortsField holding the active sort |
| SortsManager.EnabledSorts | docroot/modules/contrib/search_api_sorts/src/SearchApiSortsManager.php:70-74 | exactly the stored sorts that are enabled and belong to the escaped display id |
| SortsManager.DefaultChoice | docroot/modules/contrib/search_api_sorts/src/SearchApiSortsManager.php:82-88 | the default order is always 'asc' or 'desc' |
| SortsManager.DefaultChoiceIsLastFlagged | docroot/modules/contrib/search_api_sorts/src/SearchApiSortsManager.php:82-88 | relevance/desc when nothing is flagged; otherwise the last flagged sort with its own order |
| SortsManager.DefaultSort | docroot/modules/contrib/search_api_sorts/src/SearchApiSortsManager.php:79-94 | the order after the alter hook is still 'asc' or 'desc' |
| SortsManager.GetDefaultSort | docroot/modules/contrib/search_api_sorts/src/SearchApiSortsManager.php:79-94 | the loop yields a fresh valid SortsField holding the default sort |
| SortsBlock.Rows | docroot/modules/contrib/search_api_sorts/src/Plugin/Block/SearchApiSortsBlock.php:54-61 | one row per field identifier of an enabled sort, keys distinct |
| SortsBlock.RowsLastWins | docroot/modules/contrib/search_api_sorts/src/Plugin/Block/SearchApiSortsBlock.php:55-61 | the row under an identifier is that of the last enabled sort with it |
| SortsBlock.CollectRows | docroot/modules/contrib/search_api_sorts/src/Plugin/Block/SearchApiSortsBlock.php:54-61 | the loop builds exactly the helper array |
| SortsBlock.CurrentSort | docroot/modules/contrib/search_api_sorts/src/Plugin/Block/SearchApiSortsBlock.php:44-51 | the active sort, or the default sort when the active field loosely equals NULL |
| SortsBlock.Toggle | docroot/modules/contrib/search_api_sorts/src/Plugin/Block/SearchApiSortsBlock.php:78 | 'desc' becomes 'asc' and anything else 'desc' |
| SortsBlock.Links | docroot/modules/contrib/search_api_sorts/src/Plugin/Block/SearchApiSortsBlock.php:75-105 | one link per sorted row |
| SortsBlock.LinksAt | docroot/modules/contrib/search_api_sorts/src/Plugin/Block/SearchApiSortsBlock.php:75-105 | link i is built from row i |
| SortsBlock.LinkFacts | docroot/modules/contrib/search_api_sorts/src/Plugin/Block/SearchApiSortsBlock.php:76-104 | the query sets sort and order and keeps every other parameter and the fragment. The link is active exactly on the current field, which toggles the order and gets the indicator. Other links use the field's default order |
| SortsBlock.AtMostOneActive | docroot/modules/contrib/search_api_sorts/src/Plugin/Block/SearchApiSortsBlock.php:84 | with distinct keys no two links are active |
| SortsBlock.LinkQueryAgain | docroot/modules/contrib/search_api_sorts/src/Plugin/Block/SearchApiSortsBlock.php:81-82 | reusing the parsed URL across iterations leaves no trace of the previous link |
| SortsBlock.LinksStep | docroot/modules/contrib/search_api_sorts/src/Plugin/Block/SearchApiSortsBlock.php:93-104 | the links of one more row are the earlier links plus that row's link |
| SortsBlock.BuildLinks | docroot/modules/contrib/search_api_sorts/src/Plugin/Block/SearchApiSortsBlock.php:74-105 | the loop, writing into the same parsed URL, builds exactly the specified links |
| SortsBlock.BuildLink | docroot/modules/contrib/search_api_sorts/src/Plugin/Block/SearchApiSortsBlock.php:76-104 | one sort link: the toggled or default order, the active flag and indicator, and a URL whose query is the original one with this field and order written in, whichever earlier link last wrote the shared query |
| SortsBlock.LinksFacts | docroot/modules/contrib/search_api_sorts/src/Plugin/Block/SearchApiSortsBlock.php:75-105 | link i is for row i's field, each key is linked exactly once, and at most one link is active |
| SortsBlock.Build | docroot/modules/contrib/search_api_sorts/src/Plugin/Block/SearchApiSortsBlock.php:25-122 | the step-by-step build equals the specified block output |
| SortsBlock.BlockOutputFacts | docroot/modules/contrib/search_api_sorts/src/Plugin/Block/SearchApiSortsBlock.php:30-120 | hidden exactly when the display is not rendered or has no enabled sort. Otherwise the contextual id has no ':', every enabled field is linked once, lightest first, and at most one link is active |
| ManageSortFields.DefaultRows | docroot/modules/contrib/search_api_sorts/src/Form/ManageSortFieldsForm.php:192-224 | relevance first, then exactly the sortable fields; all disabled, not default, weight 0; keys distinct |
| ManageSortFields.DefaultRowsValues | docroot/modules/contrib/search_api_sorts/src/Form/ManageSortFieldsForm.php:194-220 | the relevance row is 'desc'/'decimal'/"Relevance" unless a field shadows it. A sortable field's row is 'asc' with its label, from the last field with its identifier |
| ManageSortFields.BuildDefaults | docroot/modules/contrib/search_api_sorts/src/Form/ManageSortFieldsForm.php:192-224 | the loop builds exactly the default table |
| ManageSortFields.Overlaid | docroot/modules/contrib/search_api_sorts/src/Form/ManageSortFieldsForm.php:234-242 | the overlay keeps the keys and never changes 'field' or 'type' |
| ManageSortFields.OverlaidKeepsRow | docroot/modules/contrib/search_api_sorts/src/Form/ManageSortFieldsForm.php:234-242 | a row that no saved setting names keeps its own status, default, order, label and weight |
| ManageSortFields.OverlaidLastWins | docroot/modules/contrib/search_api_sorts/src/Form/ManageSortFieldsForm.php:234-242 | a row takes status, default, order, label and weight from the last saved setting with its identifier, whatever earlier settings wrote |
| ManageSortFields.LoadByDisplay | docroot/modules/contrib/search_api_sorts/src/Form/ManageSortFieldsForm.php:233 | exactly the stored settings of the display, keeping distinct keys and keying by id |
| ManageSortFields.FieldsValuesShape | docroot/modules/contrib/search_api_sorts/src/Form/ManageSortFieldsForm.php:179-249 | the table has relevance and every sortable field once, ordered by weight |
| ManageSortFields.FillValues | docroot/modules/contrib/search_api_sorts/src/Form/ManageSortFieldsForm.php:232-249 | the overlay loop and `uasort` give the weight-sorted overlay |
| ManageSortFields.GetFieldsValues | docroot/modules/contrib/search_api_sorts/src/Form/ManageSortFieldsForm.php:179-187 | defaults, then fill, give the specified table |
| ManageSortFields.RowError | docroot/modules/contrib/search_api_sorts/src/Form/ManageSortFieldsForm.php:257-264 | an error exactly for an enabled row whose label is empty or longer than 80; the empty-label error exactly for an empty one |
| ManageSortFields.FormErrors | docroot/modules/contrib/search_api_sorts/src/Form/ManageSortFieldsForm.php:254-266 | at most one error per row |
| ManageSortFields.FormErrorsRows | docroot/modules/contrib/search_api_sorts/src/Form/ManageSortFieldsForm.php:254-266 | every error belongs to a row with that error on its label element, every erring row is reported, and no errors means no erring row |
| ManageSortFields.LabelElementInjective | docroot/modules/contrib/search_api_sorts/src/Form/ManageSortFieldsForm.php:259-263 | different rows have different label elements |
| ManageSortFields.ValidateForm | docroot/modules/contrib/search_api_sorts/src/Form/ManageSortFieldsForm.php:254-266 | the validation loop reports exactly the specified errors |
| ManageSortFields.SortsFieldStorage.constructor | docroot/modules/contrib/search_api_sorts/src/Form/ManageSortFieldsForm.php:272 | storage holding the given entities |
| ManageSortFields.SortsFieldStorage.Save | docroot/modules/contrib/search_api_sorts/src/Form/ManageSortFieldsForm.php:289 | saving stores the entity under its id |
| ManageSortFields.SubmittedEntity | docroot/modules/contrib/search_api_sorts/src/Form/ManageSortFieldsForm.php:273-289 | the row's values are set, and it is the default exactly when its key loosely equals the radio value. Identity comes from the loaded entity, else from the new id, field and display |
| ManageSortFields.AfterSubmitStep | docroot/modules/contrib/search_api_sorts/src/Form/ManageSortFieldsForm.php:272-291 | one more row saves one more entity |
| ManageSortFields.SubmitRow | docroot/modules/contrib/search_api_sorts/src/Form/ManageSortFieldsForm.php:273-290 | the loop body stores the row's entity under its id |
| ManageSortFields.SubmitForm | docroot/modules/contrib/search_api_sorts/src/Form/ManageSortFieldsForm.php:271-292 | the storage after the loop is the specified one |
| ManageSortFields.RowConfigIdInjective | docroot/modules/contrib/search_api_sorts/src/Form/ManageSortFieldsForm.php:274 | different row keys give different config ids |
| ManageSortFields.SubmittedEntityId | docroot/modules/contrib/search_api_sorts/src/Form/ManageSortFieldsForm.php:274-282 | a row's entity has the row's config id |
| ManageSortFields.SubmitSavesRow | docroot/modules/contrib/search_api_sorts/src/Form/ManageSortFieldsForm.php:271-292 | after submit each row's config id holds the entity built from that row |
| ManageSortFields.SubmitKeepsOthers | docroot/modules/contrib/search_api_sorts/src/Form/ManageSortFieldsForm.php:271-292 | no other config id changes |
| ManageSortFields.AtMostOneDefault | docroot/modules/contrib/search_api_sorts/src/Form/ManageSortFieldsForm.php:285 | after submit at most one of the rows' entities is the default sort |
| RavenLogger.DefaultOptions | docroot/modules/contrib/raven/src/Logger/Raven.php:69-81 | async transport, and DSN, environment, stacks, timeout and trace taken from the settings |
| RavenLogger.SentryLevelOf | docroot/modules/contrib/raven/src/Logger/Raven.php:108-118 | 0-2 fatal, 3 error, 4 warning, 5-6 info, 7 debug, none outside 0-7 |
| RavenLogger.SeverityOrderKept | docroot/modules/contrib/raven/src/Logger/Raven.php:108-118 | a more severe level never maps to a less urgent Sentry level |
| RavenLogger.EventOf | docroot/modules/contrib/raven/src/Logger/Raven.php:118-127 | level mapped, channel tag, link/referer/request_uri/timestamp extras and uid/ip user taken from the context (NULL when absent) |
| RavenLogger.MessageWithoutPlaceholders | docroot/modules/contrib/raven/src/Logger/Raven.php:119-120 | a message in which no placeholder occurs is sent verbatim |
| RavenLogger.FormLogLevels | docroot/modules/contrib/raven/src/Form/RavenConfigForm.php:50-53 | the stored keys are exactly 1..8, the severities shifted by one |
| RavenLogger.Raven.constructor | docroot/modules/contrib/raven/src/Logger/Raven.php:61-95 | no client when the library is missing or rejects the altered options; otherwise a client with the altered options. Nothing captured yet |
| RavenLogger.Raven.Log | docroot/modules/contrib/raven/src/Logger/Raven.php:100-130 | exactly one capture, with the event and the context backtrace as stack, when a client exists and `log_levels[level + 1]` is non-empty; otherwise nothing |
| RavenLogger.FormLevelsAccepted | docroot/modules/contrib/raven/src/Logger/Raven.php:105-107 | with the form's stored value, a level is accepted exactly when its box was checked |
| DisplayFieldCopyField.Pieces | docroot/modules/contrib/display_field_copy/src/Plugin/DsField/DisplayFieldCopy.php:134 | at least one piece, none containing '.' |
| DisplayFieldCopyField.RenderKeyIsLastSegment | docroot/modules/contrib/display_field_copy/src/Plugin/DsField/DisplayFieldCopy.php:132-136 | the render key is the text after the last '.', or the whole id without one |
| DisplayFieldCopyField.BaseFieldLookup | docroot/modules/contrib/display_field_copy/src/Plugin/DsField/DisplayFieldCopy.php:151-154 | "type.field" resolves to the base field of that entity type |
| DisplayFieldCopyField.ConfigFieldLookup | docroot/modules/contrib/display_field_copy/src/Plugin/DsField/DisplayFieldCopy.php:147-150 | "type.bundle.field" is loaded from field_config by the full id |
| DisplayFieldCopyField.PlainIdLookup | docroot/modules/contrib/display_field_copy/src/Plugin/DsField/DisplayFieldCopy.php:151-154 | an id without '.' looks up the base field "" of an entity type named by the id |
| DisplayFieldCopyField.DisplayFieldCopy.constructor | docroot/modules/contrib/display_field_copy/src/Plugin/DsField/DisplayFieldCopy.php:141-142 | no definition cached and no lookup done |
| DisplayFieldCopyField.DisplayFieldCopy.GetRenderKey | docroot/modules/contrib/display_field_copy/src/Plugin/DsField/DisplayFieldCopy.php:132-136 | the configured id's last segment |
| DisplayFieldCopyField.DisplayFieldCopy.GetFieldDefinition | docroot/modules/contrib/display_field_copy/src/Plugin/DsField/DisplayFieldCopy.php:141-158 | the first call looks up once and caches the result. Later calls return the cache without a lookup |
| DisplayFieldCopyField.DisplayFieldCopy.GetFormatterConfiguration | docroot/modules/contrib/display_field_copy/src/Plugin/DsField/DisplayFieldCopy.php:163-167 | the configured formatter, or [] when absent |
| DisplayFieldCopyField.DisplayFieldCopy.GetFormatter | docroot/modules/contrib/display_field_copy/src/Plugin/DsField/DisplayFieldCopy.php:172-183 | the caller's settings win, else the formatter configuration. The instance is prepared, for the view mode, over the memoised definition |
| DisplayFieldCopyForm.GetType | docroot/modules/contrib/display_field_copy/src/Form/DisplayFieldCopyForm.php:156-158 | the form's type is the DS field plugin's id |
| DisplayFieldCopyForm.GetProperties | docroot/modules/contrib/display_field_copy/src/Form/DisplayFieldCopyForm.php:147-151 | only field_id, holding the submitted id |
| DisplayFieldCopyForm.AddOptionKeys | docroot/modules/contrib/display_field_copy/src/Form/DisplayFieldCopyForm.php:97-101 | adding an option adds exactly its key, keeping keys distinct |
| DisplayFieldCopyForm.FieldOptionsKeys | docroot/modules/contrib/display_field_copy/src/Form/DisplayFieldCopyForm.php:95-103 | a bundle's loop adds exactly the keys of its base and configurable fields |
| DisplayFieldCopyForm.BundleOptionsKeys | docroot/modules/contrib/display_field_copy/src/Form/DisplayFieldCopyForm.php:92-104 | an entity type's loop adds exactly the keys of its bundles' fields |
| DisplayFieldCopyForm.TypeOptionsKeys | docroot/modules/contrib/display_field_copy/src/Form/DisplayFieldCopyForm.php:86-105 | the outer loop adds exactly the keys of content entity types |
| DisplayFieldCopyForm.BuildOptionsKeys | docroot/modules/contrib/display_field_copy/src/Form/DisplayFieldCopyForm.php:86-105 | an option key exists exactly when some content entity type gives it; keys distinct |
| DisplayFieldCopyForm.FieldOptionLabels | docroot/modules/contrib/display_field_copy/src/Form/DisplayFieldCopyForm.php:97-101 | base fields give "type.field" => "Type - label", config fields their id => "Type (Bundle) - label", other fields nothing |
| DisplayFieldCopyForm.AddFieldOptions | docroot/modules/contrib/display_field_copy/src/Form/DisplayFieldCopyForm.php:95-103 | the field loop computes the specified options |
| DisplayFieldCopyForm.AddBundleOptions | docroot/modules/contrib/display_field_copy/src/Form/DisplayFieldCopyForm.php:92-104 | the bundle loop computes the specified options |
| DisplayFieldCopyForm.BuildOptions | docroot/modules/contrib/display_field_copy/src/Form/DisplayFieldCopyForm.php:86-105 | the nested loops compute the specified options |
| DisplayFieldCopyForm.Unticked | docroot/modules/contrib/display_field_copy/src/Form/DisplayFieldCopyForm.php:129-131 | every entity key is kept |
| DisplayFieldCopyForm.SubmittedEntitiesFacts | docroot/modules/contrib/display_field_copy/src/Form/DisplayFieldCopyForm.php:126-134 | after submit the keys are the old ones plus the entity type, which maps to itself; every other old key maps to 0 |
| DisplayFieldCopyForm.SubmittedEntityType | docroot/modules/contrib/display_field_copy/src/Form/DisplayFieldCopyForm.php:126-127 | the first dot-piece of a two- or three-piece id is its entity type |
| DisplayFieldCopyForm.SubmittedUiLimitCases | docroot/modules/contrib/display_field_copy/src/Form/DisplayFieldCopyForm.php:136-139 | a three-piece id sets ui_limit to its bundle followed by the all-view-modes wildcard; one or two pieces leave it as submitted |
| DisplayFieldCopyForm.FormState.constructor | docroot/modules/contrib/display_field_copy/src/Form/DisplayFieldCopyForm.php:123 | a form state holding the submitted values |
| DisplayFieldCopyForm.SubmitForm | docroot/modules/contrib/display_field_copy/src/Form/DisplayFieldCopyForm.php:123-142 | field_id is kept, and entities and ui_limit become their specified values |
| DisplayFieldCopyForm.Untick | docroot/modules/contrib/display_field_copy/src/Form/DisplayFieldCopyForm.php:129-131 | the loop setting each entity to 0 computes the specification |

## Left out

- Floating point: coordinates are `real`. PHP float rounding is not modelled, and float-to-string conversion (the "lat,lon" column) is a parameter.
- geoPHP is not part of this model. Parsing, centroid, bounding box, geohash and GeoJSON output are the fields of a `Geometry` record handed in by a loader function.
- The geohash length constant is defined outside the modelled files, so it is a parameter.
- Regular expressions: spamspan's four patterns are matchers that cut a text into literal pieces and matches with captures. The engine and the patterns' exact languages are not modelled. The geofield_map POINT test is written out as a predicate.
- Xss filtering, strip_tags, parse_url, rawurlencode/rawurldecode, Html::escape, base64 and urlencode, `t()`, the at-sign renderer and `Url::fromUserInput` are functions given as parameters.
- Spamspan.FilterSpamspan.RestoreImageList: the `$n` backreferences of the restoring `preg_replace` are not modelled. An image payload is put back literally.
- Spamspan.FilterSpamspan.Process: the pipeline uses the corrected with-options callback (`CallbackWithOptions`, see "## Findings"), not the one as written. So in span mode, for an address with options such as `me@example.com[contact]`, its output lacks the empty `<span class="h"> () </span>` the source emits. `WithOptionsHeaderFinding` proves that the two outputs for such a match differ by that span alone.
- Spamspan.FilterSpamspan.Callback: a with-options match is dispatched to `CallbackWithOptions`, not `CallbackWithOptionsAsWritten`, for the same reason.
- Spamspan.FilterSpamspan.Process: `textAltered` is a field of the filter object and is never reset, as in the source. How Drupal reuses filter objects across texts is not modelled.
- WeightSort.SortByWeight: `uasort` is not stable in PHP 7. The model uses a stable insertion sort, which is one of the admissible outcomes, so the order of rows with equal weights is not a promise of the source.
- GeofieldMapField.ZoomLevelValidate: submitted zoom levels are modelled as integers (`Option<int>`), while the form submits strings. Numeric strings compare like integers, so ordinary input is unaffected. Against a missing sibling, though, PHP compares a string with NULL as a string with "", so a zoom of "0" counts as above a missing 'max'. The model, like `ZoomAboveMissingMax`, treats 0 as not above it.
- SortsFields.NormalizeOrder: the loose comparison `$order == 'desc'` is modelled for strings and NULL only, where it is string equality. Other PHP types under loose comparison, such as TRUE (which equals 'desc'), are not modelled.
- Loose comparisons (`==`) between strings are modelled as equality with NULL behaving like "". PHP's numeric-string comparison (`"1e1" == "10"`) and integer array keys for numeric strings are not modelled.
- String lengths: `strlen` counts bytes, the model counts characters.
- `getCacheMaxAge` of the sorts block is not part of this model. It reads the request's cache metadata.
- Form API construction: the `buildForm`, `settingsForm` and `settingsSummary` bodies are not modelled, beyond the option keys of the display field copy form. This includes element properties such as `#maxlength` and `#default_value`, and the rest of the Raven settings form apart from the stored level keys.
- ManageSortFields.SubmitForm: the config entity is modelled as a record. `SearchApiSortsField::create` is the creation of that record.
- RavenLogger.Raven.constructor: the Sentry HTTP transport and the fatal-error handler registration (source lines 91-94) are I/O. The client is the list of captured events.
- RavenLogger.Raven.Log: the message placeholder parser is a parameter.
- DisplayFieldCopyForm.SubmitForm: the parent `FieldFormBase::submitForm`, which saves the field configuration, is not part of this model. The `UniqueKeys` precondition states that a PHP array has distinct keys.
- DisplayFieldCopyField: the formatter's `viewElements`/`build` and the derivative plugin are not modelled, since they only call the field formatter manager and the renderer. A field id without a second piece looks up the base field "" of the entity type, standing for PHP's undefined index (NULL).
- The display field copy form's `getTypeLabel` and its other `buildForm` elements are UI text.
- JavaScript, the inline image filters, the views style and BLT scaffolding are not part of this model.

## Findings

| source | as written | input that shows it | evidently intended | confidence | as-written member | corrected member |
|---|---|---|---|---|---|---|
| docroot/modules/contrib/spamspan/src/Plugin/Filter/FilterSpamspan.php:247 | `callbackEmailAddressesWithOptions` passes the string '' as `$headers`. In span mode `count('')` is 1, and imploding a string gives nothing, so an empty `<span class="h"> () </span>` is emitted | an address with options, such as `me@example.com[contact]`, with the form off | no headers, as the other callbacks pass (an empty array), so the markup matches the bare-address markup | not executed | Spamspan.FilterSpamspan.CallbackWithOptionsAsWritten (shown by Spamspan.WithOptionsHeaderFinding) | Spamspan.FilterSpamspan.CallbackWithOptions |
