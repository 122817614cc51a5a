# FetchXML ⇄ Web API translation, modelled in Dafny

This project models the translation engine of MarkMpn.FetchXmlToWebAPI. The engine has two parts.

- **The forward translator** (`FetchXmlToWebAPIConverter`) turns a parsed `<fetch>` query into a Dataverse Web API URL.
  - The root `<entity>` names the entity set.
  - `<attribute>` children become `$select`.
  - `<order>` becomes `$orderby`.
  - `<filter>`/`<condition>` become `$filter` groups. Each operator of the condition-operator table is rendered as a comparison, a null test, a LIKE pattern, a string function or a `Microsoft.Dynamics.CRM` query function.
  - `<link-entity>` becomes `$expand`. It is resolved to a navigation property through one-to-many, many-to-one or two-hop many-to-many relationship metadata.
  - Inner joins become extra `ne null` / `any(oN: ..)` filters, with a counter that draws fresh range variables.
  - An aggregate query becomes `$apply=[filter(..)/][groupby((..),]aggregate(..)[)]`.
  - `top` becomes `$top`.
- **The reverse translator** (`WebAPIToFetchXmlConverter`) turns an already-parsed Web API query back into a `<fetch>` tree.
  - The entity-set path becomes the entity.
  - `$select`/`$expand` become attributes and outer links.
  - An `and`/`or`/`eq` filter tree becomes nested filters and conditions.
  - A `$orderby` chain becomes sorts.
  - `groupby`/`aggregate` become grouped and counted attributes.
  - The children are then ordered by a fixed rank.

The model keeps the source's forms:

- Pure LINQ pipelines and renderers are functions on datatypes:
  - `FetchXml` is the query tree.
  - `ODataQuery` is the rendered query objects.
  - `ODataTree` is the parsed Web API query.
  - `Metadata` is an immutable map from entity name to its metadata.
- The parts that change state step by step are methods, each proved equal to a specification function:
  - the LIKE-wildcard scan (a loop);
  - the inner-join walk (a loop threading the `ref int count` counter);
  - `ConvertOData`, which fills a mutable `EntityOData` object list by list;
  - `ParseSelect`, which builds a list in a loop;
  - `ConvertWebAPIToFetchXml`, which appends the parts and then sorts them.
- Exceptions become the `Err` case of a `Result`. The messages the two converters build themselves keep their text. The texts of exceptions raised inside .NET are approximations (see "Left out").

The modules are:

- `wrappers.dfy`: `Result`, `Outcome` and `Error`.
- `text.dfy`: `String.Join`, `Replace`, `Split`, integer printing and `Int32.Parse`.
- `url_encoding.dfy`: `HttpUtility.UrlEncode`.
- `metadata.dfy`, `fetch_xml.dfy`, `odata_tree.dfy` and `odata_query.dfy`: the data model.
- `navigation.dfy`: `LinkItemToNavigationProperty` and `FindLinkEntity`.
- `like_wildcards.dfy`: `AreAllLikeWildcardsEscaped` and `UnescapeLikeWildcards`.
- `condition_translation.dfy`: `GetCondition` and `FormatValue`.
- `forward_lists.dfy`: the select, order, filter, join, group and aggregate lists.
- `inner_joins.dfy`: `ConvertInnerJoinFilters`.
- `forward_converter.dfy`: `ConvertOData` and `ConvertFetchXmlToWebAPI`.
- `reverse_names.dfy`, `reverse_select.dfy`, `reverse_filter.dfy`, `rank_order.dfy` and `reverse_converter.dfy`: the reverse translator.

## Model

| member | source | states |
|---|---|---|
| Text.Join | MarkMpn.FetchXmlToWebAPI/FetchXmlToWebAPIConverter.cs:41-43 | Joining no parts gives the empty string and joining one part gives that part, whatever the separator; longer lists are characterised by Text.JoinAppend. |
| Text.JoinAppend | MarkMpn.FetchXmlToWebAPI/FetchXmlToWebAPIConverter.cs:41-43 | Joining two non-empty lists of parts is the join of the first, the separator, then the join of the second: one separator between consecutive parts, in order. |
| Text.JoinEmptyIff | MarkMpn.FetchXmlToWebAPI/FetchXmlToWebAPIConverter.cs:113-117 | With a non-empty separator, a joined query string is empty exactly when there are no parts, or one empty part. This decides whether `?` follows the collection name. |
| Text.SplitCount | MarkMpn.FetchXmlToWebAPI/FetchXmlToWebAPIConverter.cs:416 | `Split('/').Length` is at least 1, and is exactly 1 for a text without `/`. |
| Text.SplitCountAppend | MarkMpn.FetchXmlToWebAPI/FetchXmlToWebAPIConverter.cs:262 | The segments of a concatenation are those of both halves less one, so each `nav/` appended to a path adds one level. |
| Text.ReplaceAbsent | MarkMpn.FetchXmlToWebAPI/FetchXmlToWebAPIConverter.cs:893-896 | `Replace` leaves unchanged a text in which the pattern's first character never occurs. |
| Text.ReplaceHit | MarkMpn.FetchXmlToWebAPI/FetchXmlToWebAPIConverter.cs:893-896 | A text that starts with the pattern gets the replacement, and replacing carries on after the match. |
| Text.NatToString | MarkMpn.FetchXmlToWebAPI/FetchXmlToWebAPIConverter.cs:110 | A printed number has at least one character and only decimal digits. |
| Text.DigitsValueOfNatToString | MarkMpn.FetchXmlToWebAPI/FetchXmlToWebAPIConverter.cs:110 | The digits printed for `n` have the value `n`. |
| Text.IntToStringInjective | MarkMpn.FetchXmlToWebAPI/FetchXmlToWebAPIConverter.cs:110 | Different integers print differently. |
| Text.ParseInteger | MarkMpn.FetchXmlToWebAPI/FetchXmlToWebAPIConverter.cs:184 | `Int32.Parse`/`Int64.Parse`: a successful parse lies in the type's range. Anything else is a format or overflow error. |
| Text.ParseUnsigned | MarkMpn.FetchXmlToWebAPI/FetchXmlToWebAPIConverter.cs:184 | Unsigned digits within range parse to their value. |
| Text.ParseNegative | MarkMpn.FetchXmlToWebAPI/FetchXmlToWebAPIConverter.cs:184 | `-` followed by digits parses to minus their value when that is in range. |
| Text.IntToStringParses | MarkMpn.FetchXmlToWebAPI/FetchXmlToWebAPIConverter.cs:184 | Printing an in-range integer and parsing the text gives the integer back. |
| Text.TrimStartWhite | MarkMpn.FetchXmlToWebAPI/FetchXmlToWebAPIConverter.cs:184 | `Int32.Parse` skips leading white space: the trimmed text is no longer and does not start with white space. |
| Text.TrimEndWhite | MarkMpn.FetchXmlToWebAPI/FetchXmlToWebAPIConverter.cs:184 | The same for trailing white space. |
| Text.ParseTrimmed | MarkMpn.FetchXmlToWebAPI/FetchXmlToWebAPIConverter.cs:184 | Parsing the text once it is trimmed gives a value in range or an error. |
| Text.IntToStringTrimmed | MarkMpn.FetchXmlToWebAPI/FetchXmlToWebAPIConverter.cs:184 | A printed integer has no surrounding white space for parsing to trim. |
| UrlEncoding.Utf8 | MarkMpn.FetchXmlToWebAPI/FetchXmlToWebAPIConverter.cs:939 | A character takes one to four UTF-8 bytes, and one byte exactly when it is ASCII. |
| UrlEncoding.EscapeBytes | MarkMpn.FetchXmlToWebAPI/FetchXmlToWebAPIConverter.cs:939 | Every byte becomes exactly three characters `%xx`. |
| UrlEncoding.UrlEncode | MarkMpn.FetchXmlToWebAPI/FetchXmlToWebAPIConverter.cs:939 | `HttpUtility.UrlEncode` never shortens its input. |
| UrlEncoding.UrlEncodeOutputAlphabet | MarkMpn.FetchXmlToWebAPI/FetchXmlToWebAPIConverter.cs:939 | The encoding holds only URL-safe characters, `+` and `%`. |
| UrlEncoding.EscapeBytesAlphabet | MarkMpn.FetchXmlToWebAPI/FetchXmlToWebAPIConverter.cs:939 | Escaped bytes consist only of `%` and URL-safe characters (the hexadecimal digits). |
| UrlEncoding.UrlEncodeSafe | MarkMpn.FetchXmlToWebAPI/FetchXmlToWebAPIConverter.cs:957 | Text made only of safe characters, such as a printed integer, is left unchanged. |
| UrlEncoding.UrlEncodeAppend | MarkMpn.FetchXmlToWebAPI/FetchXmlToWebAPIConverter.cs:486 | Encoding a concatenation is the concatenation of the encodings. |
| UrlEncoding.DecodeEscapeBytes | MarkMpn.FetchXmlToWebAPI/FetchXmlToWebAPIConverter.cs:939 | Percent-decoding escaped bytes followed by any text gives those bytes, then the decoding of the text. |
| UrlEncoding.PercentDecodeUrlEncode | MarkMpn.FetchXmlToWebAPI/FetchXmlToWebAPIConverter.cs:939 | Round trip: percent-decoding the encoding of a string gives the string's UTF-8 bytes. |
| Metadata.GetEntity | MarkMpn.FetchXmlToWebAPI/FetchXmlToWebAPIConverter.cs:423 | The lookup succeeds exactly for a known entity and returns its metadata. |
| Metadata.AttributesNamed | MarkMpn.FetchXmlToWebAPI/FetchXmlToWebAPIConverter.cs:424 | Gives exactly the attributes with the logical name asked for. |
| Metadata.FindAttribute | MarkMpn.FetchXmlToWebAPI/FetchXmlToWebAPIConverter.cs:424-428 | `SingleOrDefault`: the attribute found is one of the entity's and has the name; `None` exactly when no attribute has it; and the error "Sequence contains more than one matching element" exactly when two attributes share the name. |
| Metadata.NamedTwiceCount | MarkMpn.FetchXmlToWebAPI/FetchXmlToWebAPIConverter.cs:424-428 | Two or more attributes carry the name exactly when two different positions of the list carry it, which is when `SingleOrDefault` throws. |
| FetchXml.Links | MarkMpn.FetchXmlToWebAPI/FetchXmlToWebAPIConverter.cs:905 | `OfType<FetchLinkEntityType>()`: exactly the link children, never more than the children. |
| Navigation.FirstOneToMany | MarkMpn.FetchXmlToWebAPI/FetchXmlToWebAPIConverter.cs:996-1005 | The relationship found is the first in metadata order that the link follows (the referenced side is the entity and `to`, the referencing side the link's entity and `from`): it matches, and no earlier relationship does. None exactly when no relationship matches. |
| Navigation.FirstManyToOne | MarkMpn.FetchXmlToWebAPI/FetchXmlToWebAPIConverter.cs:1006-1015 | The same for many-to-one relationships, with the referencing side being the entity: the first match in metadata order, or None exactly when nothing matches. |
| Navigation.NestedLinks | MarkMpn.FetchXmlToWebAPI/FetchXmlToWebAPIConverter.cs:1021-1025 | The nested links are given exactly when the link has children and at most one nested link. Otherwise the result is a null error or "Invalid M:M-relation definition for OData". |
| Navigation.ManyToManyFromEntity1 | MarkMpn.FetchXmlToWebAPI/FetchXmlToWebAPIConverter.cs:1016-1037 | The first relationship in metadata order with the entity as entity 1, the link's `from` as its intersect attribute, and a single nested link to entity 2 on entity 2's intersect attribute, wins: the result is its entity-1 navigation property, as a collection skipping to that nested link. `None` exactly when every relationship is passed over, and an error only when the link's nested links are malformed, with their error. |
| Navigation.ManyToManyFromEntity2 | MarkMpn.FetchXmlToWebAPI/FetchXmlToWebAPIConverter.cs:1038-1059 | The same from the entity-2 side, the nested link's key being compared as chosen by the `NextKey` parameter (`from` as written, `to` corrected). |
| Navigation.ResolveLink | MarkMpn.FetchXmlToWebAPI/FetchXmlToWebAPIConverter.cs:992-1063 | An unknown entity fails. The first matching one-to-many relationship wins and gives a collection property; failing that, the first matching many-to-one gives a single-valued one. A far link is returned only for a child link holding exactly that nested link, and each result is justified by the first matching relationship of its kind. |
| Navigation.ResolveLinkManyToMany | MarkMpn.FetchXmlToWebAPI/FetchXmlToWebAPIConverter.cs:1016-1059 | When neither a one-to-many nor a many-to-one relationship matches, the entity-1 side of the many-to-many relationships is tried before the entity-2 side. |
| Navigation.ResolveLinkUnresolved | MarkMpn.FetchXmlToWebAPI/FetchXmlToWebAPIConverter.cs:1060 | "Cannot find metadata for relation <entity>.<to> => <name>.<from>" is raised exactly when the entity is known and every one-to-many, many-to-one and many-to-many relationship (from both sides) is passed over. |
| Navigation.ResolveLinkFallsThrough | MarkMpn.FetchXmlToWebAPI/FetchXmlToWebAPIConverter.cs:996-1060 | For a known entity, the final error is reached exactly when the one-to-many, many-to-one, entity-1 and entity-2 searches all come back empty. |
| Navigation.ManyToManyResolvesFromBothSides | MarkMpn.FetchXmlToWebAPI/FetchXmlToWebAPIConverter.cs:1016-1059 | With the corrected key, a many-to-many relationship is followed from either side. The link shaped for each side resolves to that side's navigation property and its far link. |
| Navigation.ManyToManyAsWrittenNeedsEqualKeys | MarkMpn.FetchXmlToWebAPI/FetchXmlToWebAPIConverter.cs:1052 | As written, the entity-2 side fails to recognise its own link shape whenever the far entity's key differs from its intersect attribute. |
| Navigation.FindLinkEntityWith | MarkMpn.FetchXmlToWebAPI/FetchXmlToWebAPIConverter.cs:899-926 | A link found is named by the alias (or, without an alias, by its entity name) and lies in the tree. Its navigation path extends the path given and ends in `/`. A search that finds nothing means no link of the tree matches; the link found is the first match in pre-order (Navigation.FindLinkEntityFirstInPreOrder). |
| Navigation.FirstAliased | MarkMpn.FetchXmlToWebAPI/FetchXmlToWebAPIConverter.cs:905-923 | The first link of a list named by the alias: a link found is the earliest so named, and None exactly when no link has the name. |
| Navigation.FirstAliasedAppend | MarkMpn.FetchXmlToWebAPI/FetchXmlToWebAPIConverter.cs:905-923 | Searching a concatenation finds the first list's match if it has one, otherwise the second list's. |
| Navigation.FindLinkEntityFirstInPreOrder | MarkMpn.FetchXmlToWebAPI/FetchXmlToWebAPIConverter.cs:899-926 | The link the search finds is the first link named by the alias in pre-order (a link, then its descendants, then its later siblings), and it finds nothing exactly when no link in pre-order has the name. |
| Navigation.ChildlessLinkStopsSearchAsWritten | MarkMpn.FetchXmlToWebAPI/FetchXmlToWebAPIConverter.cs:917 | As written, a childless link met before the one named makes the search fail, because its absent child list is searched. |
| Navigation.ChildlessLinkSkipped | MarkMpn.FetchXmlToWebAPI/FetchXmlToWebAPIConverter.cs:905-923 | The corrected search passes over a childless link that does not match and carries on with its siblings. |
| Navigation.SkippingChildlessAgrees | MarkMpn.FetchXmlToWebAPI/FetchXmlToWebAPIConverter.cs:899-926 | Wherever the search as written gives an answer, the corrected search gives the same one. |
| LikeWildcards.AreAllLikeWildcardsEscaped | MarkMpn.FetchXmlToWebAPI/FetchXmlToWebAPIConverter.cs:844-889 | The `for` loop over `bracketStart` accepts a value exactly when it satisfies the grammar `WildcardsEscaped`. |
| LikeWildcards.BracketScan | MarkMpn.FetchXmlToWebAPI/FetchXmlToWebAPIConverter.cs:850-885 | Scanning inside an open bracket: an end of input accepts, and a character that is not a wildcard rejects. A `]` after more than one inner character rejects. A `]` after at most one inner character goes on with the rest. |
| LikeWildcards.BracketScanAt | MarkMpn.FetchXmlToWebAPI/FetchXmlToWebAPIConverter.cs:850-885 | The same facts at an index `i` of the value, for a bracket opened at `b`. |
| LikeWildcards.PlainStep | MarkMpn.FetchXmlToWebAPI/FetchXmlToWebAPIConverter.cs:852-860 | A character that is not a wildcard, outside a bracket, does not change the verdict. |
| LikeWildcards.DecodedTokensAreUnescaped | MarkMpn.FetchXmlToWebAPI/FetchXmlToWebAPIConverter.cs:891-897 | On an accepted value, the three `Replace` passes decode every escaped wildcard exactly once. |
| LikeWildcards.UnescapeDecodesAcceptedPatterns | MarkMpn.FetchXmlToWebAPI/FetchXmlToWebAPIConverter.cs:891-897 | On every value the scan accepts, `UnescapeLikeWildcards` replaces `[_]`, `[%]` and `[[]` by the bare character and changes nothing else. |
| LikeWildcards.PlainPrefix | MarkMpn.FetchXmlToWebAPI/FetchXmlToWebAPIConverter.cs:852-860 | A prefix without `% _ [ ]` neither changes acceptance nor is changed by unescaping. |
| LikeWildcards.PlainAccepted | MarkMpn.FetchXmlToWebAPI/FetchXmlToWebAPIConverter.cs:844-897 | A value without `% _ [ ]` is accepted and unescapes to itself. |
| LikeWildcards.BareWildcardRejected | MarkMpn.FetchXmlToWebAPI/FetchXmlToWebAPIConverter.cs:864-872 | `%`, `_` or `]` outside a bracket is rejected. |
| LikeWildcards.NonWildcardInBracketRejected | MarkMpn.FetchXmlToWebAPI/FetchXmlToWebAPIConverter.cs:854-858 | A character that is not a wildcard inside a bracket is rejected. |
| LikeWildcards.WideBracketRejected | MarkMpn.FetchXmlToWebAPI/FetchXmlToWebAPIConverter.cs:875-880 | A bracket with more than one character inside is rejected. |
| LikeWildcards.EscapedWildcardDecoded | MarkMpn.FetchXmlToWebAPI/FetchXmlToWebAPIConverter.cs:844-897 | A bracketed wildcard after plain text is accepted, and is unescaped to the bare wildcard. |
| LikeWildcards.BracketedHead | MarkMpn.FetchXmlToWebAPI/FetchXmlToWebAPIConverter.cs:844-897 | A leading bracketed wildcard is accepted and decodes to the wildcard, followed by the decoding of the rest. |
| ConditionTranslation.FormatValue | MarkMpn.FetchXmlToWebAPI/FetchXmlToWebAPIConverter.cs:936-958 | A string becomes a single-quoted literal with quotes doubled and the content URL-encoded. A boolean is `true` exactly for `"1"` and `false` otherwise, even when null. An int or long succeeds exactly when `Int32`/`Int64` parsing succeeds, and its literal parses back to the same number. A null value of any other type fails. |
| ConditionTranslation.IntegerLiteral | MarkMpn.FetchXmlToWebAPI/FetchXmlToWebAPIConverter.cs:957 | An integer literal is unchanged by URL encoding and reads back as the integer. |
| ConditionTranslation.QuotedLiteralOfQuotedString | MarkMpn.FetchXmlToWebAPI/FetchXmlToWebAPIConverter.cs:939 | A string literal is delimited by its quotes: no quote occurs inside it. |
| ConditionTranslation.UndoubleDoubledQuotes | MarkMpn.FetchXmlToWebAPI/FetchXmlToWebAPIConverter.cs:939 | Doubling the quotes is undone by halving them. |
| ConditionTranslation.StringLiteralRoundTrip | MarkMpn.FetchXmlToWebAPI/FetchXmlToWebAPIConverter.cs:939 | The text between the quotes percent-decodes to the UTF-8 of the quote-doubled value, and halving the quotes gives back the value. |
| ConditionTranslation.FormatAll | MarkMpn.FetchXmlToWebAPI/FetchXmlToWebAPIConverter.cs:782 | The `PropertyValues=[..]` list holds one literal per `<value>`, in order. An error is the error of some value. |
| ConditionTranslation.FormatNumbered | MarkMpn.FetchXmlToWebAPI/FetchXmlToWebAPIConverter.cs:788 | The `i`-th value becomes `Property<i+1>=<literal>`. An error is the error of some value. |
| ConditionTranslation.FormOf | MarkMpn.FetchXmlToWebAPI/FetchXmlToWebAPIConverter.cs:435-777 | The operator table. Exactly the operators outside the table are unsupported. Query functions take string or long parameters, and a long parameter goes with one value or numbered values. |
| ConditionTranslation.LikePattern | MarkMpn.FetchXmlToWebAPI/FetchXmlToWebAPIConverter.cs:456-467 | A LIKE value is accepted exactly when its core passes the wildcard check. The core is the value without one leading and one trailing `%`. The result records both wildcards and the unescaped core. |
| ConditionTranslation.EscapeLike | MarkMpn.FetchXmlToWebAPI/FetchXmlToWebAPIConverter.cs:456-467 | The escaped form of a non-empty text neither starts nor ends with `%`. |
| ConditionTranslation.EscapeLikeAccepted | MarkMpn.FetchXmlToWebAPI/FetchXmlToWebAPIConverter.cs:464-467 | A text without `]`, with its wildcards escaped, passes the wildcard check and unescapes to itself. |
| ConditionTranslation.LikeCoreOfWrapped | MarkMpn.FetchXmlToWebAPI/FetchXmlToWebAPIConverter.cs:456-461 | Adding `%` in front and/or behind is exactly what stripping the wildcards detects and removes. |
| ConditionTranslation.InitialOfWrapped | MarkMpn.FetchXmlToWebAPI/FetchXmlToWebAPIConverter.cs:456-458 | A leading `%` is detected exactly when one was added, and removing it leaves the rest. |
| ConditionTranslation.TerminalOfWrapped | MarkMpn.FetchXmlToWebAPI/FetchXmlToWebAPIConverter.cs:459-461 | A trailing `%` is detected exactly when one was added, and removing it leaves the core. |
| ConditionTranslation.LikePatternRoundTrip | MarkMpn.FetchXmlToWebAPI/FetchXmlToWebAPIConverter.cs:456-467 | Round trip: any text without `]`, escaped and wrapped in any choice of wildcards, is read back as that text with those wildcards. |
| ConditionTranslation.ConditionTarget | MarkMpn.FetchXmlToWebAPI/FetchXmlToWebAPIConverter.cs:374-421 | Without `entityname`, the condition applies to the current entity and path. With one, it applies to the link the search finds, which must be named by the alias, lie in the tree and be single-valued. "Cannot find filter entity" is the result when there is none. A path with three or more segments is refused. |
| ConditionTranslation.LinkTarget | MarkMpn.FetchXmlToWebAPI/FetchXmlToWebAPIConverter.cs:376-413 | The target of an aliased condition is the matching, single-valued link of the tree. A missing link gives "Cannot find filter entity". |
| ConditionTranslation.AppendValue | MarkMpn.FetchXmlToWebAPI/FetchXmlToWebAPIConverter.cs:791-838 | A `valueof` column or a value already inside the expression is appended as it is. Otherwise a literal value is formatted and appended, and the expression fails exactly when the value cannot be formatted. The expression built so far is always kept as the prefix. |
| ConditionTranslation.FunctionCall | MarkMpn.FetchXmlToWebAPI/FetchXmlToWebAPIConverter.cs:779-789 | `<path>Microsoft.Dynamics.CRM.<Function>(PropertyName='<attr>'` followed by `)` without parameters, `,PropertyValue=<literal>)` for one value, `,PropertyValues=[<literals>])` for a list, or `,Property<i>=<literal>,..)` for numbered values. A function that takes values fails exactly when there are none or one fails to format. |
| ConditionTranslation.ApplyOperator | MarkMpn.FetchXmlToWebAPI/FetchXmlToWebAPIConverter.cs:435-838 | Per operator form: a comparison is `<path><property> <op> ` followed by the value; a null test is the property and `eq null`/`ne null`; a LIKE or string match on a value is its LIKE or string-match translation and fails on a null value; a query function is its function call; an operator outside the table gives "Unsupported OData condition operator '<op>'". |
| ConditionTranslation.LikeCondition | MarkMpn.FetchXmlToWebAPI/FetchXmlToWebAPIConverter.cs:454-489 | A value the wildcard check rejects fails with its error. Without a leading or trailing `%` the LIKE is an `eq` comparison on the unescaped text (preceded by `not ` for `not-like`). With wildcards it is `contains`, `endswith` or `startswith` on the encoded column with the quoted unescaped text, preceded by `not ` for `not-like`. |
| ConditionTranslation.StringMatchCondition | MarkMpn.FetchXmlToWebAPI/FetchXmlToWebAPIConverter.cs:490-507 | `begins-with`/`ends-with` become `startswith`/`endswith` on the encoded column with the quoted value, preceded by `not ` for the negated operators. |
| ConditionTranslation.GetCondition | MarkMpn.FetchXmlToWebAPI/FetchXmlToWebAPIConverter.cs:369-842 | A condition without an attribute renders as the empty string. A rendered condition has a target entity that is known, an attribute found in that entity's metadata, and is exactly the operator's translation on that target's path and attribute; an unknown operator always fails. |
| ConditionTranslation.ConditionOfForm | MarkMpn.FetchXmlToWebAPI/FetchXmlToWebAPIConverter.cs:374-838 | The same once the operator is looked up. An attribute missing from the target entity gives "No metadata for attribute: <entity>.<attribute>". |
| ConditionTranslation.NeqIsNe | MarkMpn.FetchXmlToWebAPI/FetchXmlToWebAPIConverter.cs:437-447 | `neq` translates exactly as `ne` does. |
| ConditionTranslation.AppendValueAfterNot | MarkMpn.FetchXmlToWebAPI/FetchXmlToWebAPIConverter.cs:486-488 | Prefixing `not ` changes neither success nor what is appended. |
| ConditionTranslation.NegatedLikeIsNot | MarkMpn.FetchXmlToWebAPI/FetchXmlToWebAPIConverter.cs:486-487 | `not-like` succeeds exactly when `like` does, and is `not ` followed by the `like` translation. |
| ConditionTranslation.NegatedStringMatchIsNot | MarkMpn.FetchXmlToWebAPI/FetchXmlToWebAPIConverter.cs:492-505 | The same for `not-begin-with` and `not-end-with`. |
| ConditionTranslation.NegatedMatchIsNot | MarkMpn.FetchXmlToWebAPI/FetchXmlToWebAPIConverter.cs:454-507 | For each of the pairs like/not-like, begins-with/not-begin-with and ends-with/not-end-with, the negated operator is `not ` followed by the positive one, and fails exactly when it does. |
| ConditionTranslation.NegatedLikeApplied | MarkMpn.FetchXmlToWebAPI/FetchXmlToWebAPIConverter.cs:454-489 | The same for the LIKE form on any value, including a null one. |
| ConditionTranslation.NegatedStringMatchApplied | MarkMpn.FetchXmlToWebAPI/FetchXmlToWebAPIConverter.cs:490-507 | The same for the string-match form on any value. |
| ConditionTranslation.LikeWithoutWildcardsIsEquality | MarkMpn.FetchXmlToWebAPI/FetchXmlToWebAPIConverter.cs:468-471 | A LIKE without a leading or trailing `%` translates exactly as `eq` on the unescaped text. |
| ConditionTranslation.LikeAndEqForms | MarkMpn.FetchXmlToWebAPI/FetchXmlToWebAPIConverter.cs:437-455 | `like` takes the LIKE branch (not negated) and `eq` the comparison branch written `eq`. |
| ConditionTranslation.EqSymbolText | MarkMpn.FetchXmlToWebAPI/FetchXmlToWebAPIConverter.cs:443 | The comparison `eq` on a property reads `<property> eq `. |
| ConditionTranslation.LikeWithBothWildcardsIsContains | MarkMpn.FetchXmlToWebAPI/FetchXmlToWebAPIConverter.cs:472-484 | `%x%` becomes `contains(<column>, '<x>')`, with the unescaped text and no value appended. |
| ConditionTranslation.LikeWithWildcardsIsFunction | MarkMpn.FetchXmlToWebAPI/FetchXmlToWebAPIConverter.cs:472-484 | Any accepted LIKE value with a leading or trailing `%` becomes the matching function call on the column and the quoted unescaped core, followed by the `valueof` column when one is given. |
| ConditionTranslation.LikeWithLeadingWildcardIsEndsWith | MarkMpn.FetchXmlToWebAPI/FetchXmlToWebAPIConverter.cs:472-484 | `%x` becomes `endswith(<column>, '<x>')`. |
| ConditionTranslation.LikeWithTrailingWildcardIsStartsWith | MarkMpn.FetchXmlToWebAPI/FetchXmlToWebAPIConverter.cs:472-484 | `x%` becomes `startswith(<column>, '<x>')`. |
| ConditionTranslation.EqualityExample | MarkMpn.FetchXmlToWebAPI.Tests/FetchXmlConversionTests.cs:69-83 | `name eq FXB` on a string attribute renders as `name eq 'FXB'`. |
| ConditionTranslation.EscapedPrefixExample | MarkMpn.FetchXmlToWebAPI.Tests/FetchXmlConversionTests.cs:367-381 | `like [[]FXB%` renders as `startswith(name, '%5bFXB')`: the escaped bracket is unescaped and then URL-encoded. |
| ConditionTranslation.QuotedFXB | MarkMpn.FetchXmlToWebAPI.Tests/FetchXmlConversionTests.cs:76-83 | The value `FXB` formats as the literal `'FXB'`. |
| ConditionTranslation.EqualityText | MarkMpn.FetchXmlToWebAPI.Tests/FetchXmlConversionTests.cs:76-83 | `name eq ` takes a literal, and with `'FXB'` reads `name eq 'FXB'`. |
| ConditionTranslation.EscapedBracketFXB | MarkMpn.FetchXmlToWebAPI.Tests/FetchXmlConversionTests.cs:374 | The prefix `[FXB` is written as the LIKE pattern `[[]FXB%`. |
| ConditionTranslation.QuotedBracketFXB | MarkMpn.FetchXmlToWebAPI.Tests/FetchXmlConversionTests.cs:374-381 | The value `[FXB` formats as `'%5bFXB'`: the bracket is URL-encoded. |
| ConditionTranslation.ColumnName | MarkMpn.FetchXmlToWebAPI.Tests/FetchXmlConversionTests.cs:381 | The attribute `name` at the top level is the column `name`, unchanged by URL-encoding. |
| ConditionTranslation.StartsWithCallText | MarkMpn.FetchXmlToWebAPI.Tests/FetchXmlConversionTests.cs:381 | The `startswith` call on `name` and `'%5bFXB'` reads `startswith(name, '%5bFXB')`. |
| ForwardLists.AttributesOf | MarkMpn.FetchXmlToWebAPI/FetchXmlToWebAPIConverter.cs:213 | `OfType<FetchAttributeType>()`: exactly the attribute children. |
| ForwardLists.SelectedNames | MarkMpn.FetchXmlToWebAPI/FetchXmlToWebAPIConverter.cs:326-328 | Exactly the names of the attribute children that have one. |
| ForwardLists.OrdersOf | MarkMpn.FetchXmlToWebAPI/FetchXmlToWebAPIConverter.cs:962-964 | Exactly the `<order>` children that name an attribute. |
| ForwardLists.ConditionsOf | MarkMpn.FetchXmlToWebAPI/FetchXmlToWebAPIConverter.cs:364-365 | Exactly the `<condition>` children. |
| ForwardLists.FiltersOf | MarkMpn.FetchXmlToWebAPI/FetchXmlToWebAPIConverter.cs:350-352 | Exactly the `<filter>` children with at least one child; empty filters are skipped. |
| ForwardLists.JoinedLinks | MarkMpn.FetchXmlToWebAPI/FetchXmlToWebAPIConverter.cs:303 | Exactly the `<link-entity>` children with at least one child. |
| ForwardLists.ConvertGroups | MarkMpn.FetchXmlToWebAPI/FetchXmlToWebAPIConverter.cs:211-216 | The names of exactly the attributes that carry `groupby`, in document order and with repeats kept (see ForwardLists.ConvertGroupsAppend). |
| ForwardLists.GroupNames | MarkMpn.FetchXmlToWebAPI/FetchXmlToWebAPIConverter.cs:213-215 | The same over a list of attributes; never longer than the list. |
| ForwardLists.GroupNamesAppend | MarkMpn.FetchXmlToWebAPI/FetchXmlToWebAPIConverter.cs:213-215 | The group names of two lists of attributes are those of the first followed by those of the second. |
| ForwardLists.ConvertGroupsAppend | MarkMpn.FetchXmlToWebAPI/FetchXmlToWebAPIConverter.cs:211-216 | The groups of two runs of children are the groups of the first run followed by those of the second, so order and multiplicity follow the document. |
| ForwardLists.ConvertGroupsSingle | MarkMpn.FetchXmlToWebAPI/FetchXmlToWebAPIConverter.cs:213-215 | A single child contributes its name (empty when absent) exactly when it is an attribute with `groupby`, and nothing otherwise. |
| ForwardLists.GetAggregateType | MarkMpn.FetchXmlToWebAPI/FetchXmlToWebAPIConverter.cs:225-242 | Every aggregate type except `count` has an OData name; `count` raises "Unknown aggregate type count". |
| ForwardLists.GetAggregateTypeInjective | MarkMpn.FetchXmlToWebAPI/FetchXmlToWebAPIConverter.cs:225-242 | Different aggregate types get different OData names. |
| ForwardLists.AggregatedAttributes | MarkMpn.FetchXmlToWebAPI/FetchXmlToWebAPIConverter.cs:220-221 | Exactly the attributes that carry an aggregate. |
| ForwardLists.AggregateText | MarkMpn.FetchXmlToWebAPI/FetchXmlToWebAPIConverter.cs:222 | Every aggregate ends in ` as <alias>`. It is `$count as <alias>` exactly for `count`; any other aggregate is `<name> with <method> as <alias>`, the method being the aggregate type's OData name. |
| ForwardLists.ConvertAggregates | MarkMpn.FetchXmlToWebAPI/FetchXmlToWebAPIConverter.cs:218-223 | One text per aggregated attribute, in document order. |
| ForwardLists.AggregateTexts | MarkMpn.FetchXmlToWebAPI/FetchXmlToWebAPIConverter.cs:222 | The same over a list of aggregated attributes. |
| ForwardLists.ConvertSelect | MarkMpn.FetchXmlToWebAPI/FetchXmlToWebAPIConverter.cs:324-346 | An unknown entity fails. Otherwise there is one property per named attribute, in order, each the property of that attribute's metadata. |
| ForwardLists.AttributeNames | MarkMpn.FetchXmlToWebAPI/FetchXmlToWebAPIConverter.cs:333-346 | Each name becomes the property of its attribute. A failure is the failure of some name. |
| ForwardLists.AttributeProperty | MarkMpn.FetchXmlToWebAPI/FetchXmlToWebAPIConverter.cs:339-344 | A known attribute gives its property. An unknown one gives "Unknown attribute <entity>.<name>". |
| ForwardLists.ConvertSelectRefusesUnknown | MarkMpn.FetchXmlToWebAPI/FetchXmlToWebAPIConverter.cs:341-342 | Selecting any attribute the entity does not have makes the select fail. |
| ForwardLists.ConvertOrderItem | MarkMpn.FetchXmlToWebAPI/FetchXmlToWebAPIConverter.cs:968-984 | A sort with an alias is refused. A sort on an unknown attribute is refused. Otherwise the attribute's property is sorted in the order's direction. |
| ForwardLists.ConvertOrder | MarkMpn.FetchXmlToWebAPI/FetchXmlToWebAPIConverter.cs:960-966 | One sort key per `<order>` with an attribute, in order. A failure is the failure of some order. |
| ForwardLists.ConvertConditions | MarkMpn.FetchXmlToWebAPI/FetchXmlToWebAPIConverter.cs:362-367 | One expression per `<condition>`, in order, each `GetCondition` of that condition. A failure is the failure of some condition. |
| ForwardLists.Collect | MarkMpn.FetchXmlToWebAPI/FetchXmlToWebAPIConverter.cs:364-366 | Enumerating a lazy `Select` to the end: every result succeeded and is kept in order, or the failure is that of some element. |
| ForwardLists.ConvertFilters | MarkMpn.FetchXmlToWebAPI/FetchXmlToWebAPIConverter.cs:348-360 | No non-empty filters give no groups. Otherwise there is one group per non-empty filter, with its `and`/`or` type, one condition per `<condition>` and one subgroup per nested non-empty filter (contents by ForwardLists.ConvertFiltersElements). |
| ForwardLists.ConvertFilter | MarkMpn.FetchXmlToWebAPI/FetchXmlToWebAPIConverter.cs:354-358 | One filter's group has the filter's shape, and its conditions are the translations of the filter's conditions. |
| ForwardLists.ConvertFilterContents | MarkMpn.FetchXmlToWebAPI/FetchXmlToWebAPIConverter.cs:354-358 | A translated filter is its type, the translation of its own conditions and, as subgroups, the translation of its own nested filters. It fails with the first failing condition's error, or else with that of its nested filters. |
| ForwardLists.ConvertFiltersElements | MarkMpn.FetchXmlToWebAPI/FetchXmlToWebAPIConverter.cs:348-360 | Each group returned is the translation of the corresponding non-empty `<filter>` child, in order, so nested groups hold exactly the translations of the nested filters. |
| ForwardLists.ConvertJoins | MarkMpn.FetchXmlToWebAPI/FetchXmlToWebAPIConverter.cs:301-322 | No joined links give no expands. Otherwise there is one expand per link with children, in order, each named by the link's navigation property (contents by ForwardLists.ConvertJoinsElements). |
| ForwardLists.ConvertJoin | MarkMpn.FetchXmlToWebAPI/FetchXmlToWebAPIConverter.cs:305-319 | An expand is named by the resolved navigation property, and a single-valued link that is not outer has no filter. |
| ForwardLists.ConvertJoinContents | MarkMpn.FetchXmlToWebAPI/FetchXmlToWebAPIConverter.cs:305-319 | A translated link's `$select` and nested `$expand` are those of the children of the entity reached (the far link of a many-to-many pair, otherwise the link). Its `$filter` is that of those children for an outer or collection-valued link, and empty otherwise. |
| ForwardLists.ConvertJoinsElements | MarkMpn.FetchXmlToWebAPI/FetchXmlToWebAPIConverter.cs:301-322 | Each expand returned is the translation of the corresponding link with children, in order. |
| ForwardLists.Current | MarkMpn.FetchXmlToWebAPI/FetchXmlToWebAPIConverter.cs:308 | The entity reached by following a many-to-many link to its nested link is no larger a tree than the link. |
| InnerJoins.InnerJoinFilters | MarkMpn.FetchXmlToWebAPI/FetchXmlToWebAPIConverter.cs:244-299 | Fresh names: the range variables drawn are consecutive counter values starting at the counter given, and the counter ends advanced by their number, which is the number of collection-valued inner links walked (InnerJoins.InnerJoinFiltersCount). |
| InnerJoins.ItemJoin | MarkMpn.FetchXmlToWebAPI/FetchXmlToWebAPIConverter.cs:248 | The same for one child, which contributes only when it is an inner link. |
| InnerJoins.InnerJoinFilter | MarkMpn.FetchXmlToWebAPI/FetchXmlToWebAPIConverter.cs:250-297 | The same for one inner link, whether single-valued or a collection. |
| InnerJoins.SingleRecordFilter | MarkMpn.FetchXmlToWebAPI/FetchXmlToWebAPIConverter.cs:255-276 | The same for a single-valued link, which draws only in its nested links. |
| InnerJoins.CollectionFilter | MarkMpn.FetchXmlToWebAPI/FetchXmlToWebAPIConverter.cs:277-296 | The same for a collection link, which draws one value first. |
| InnerJoins.ChainConsecutive | MarkMpn.FetchXmlToWebAPI/FetchXmlToWebAPIConverter.cs:244-299 | Two runs of fresh names one after the other form one run, because the counter is threaded by reference. |
| InnerJoins.OnlyInnerLinksContribute | MarkMpn.FetchXmlToWebAPI/FetchXmlToWebAPIConverter.cs:248 | Without inner links among the children there are no filters and the counter is untouched. |
| InnerJoins.NestedUnfilteredIsRefused | MarkMpn.FetchXmlToWebAPI/FetchXmlToWebAPIConverter.cs:259-266 | A single-valued inner link below the first level without a filter of its own is refused with "Cannot include inner join on nested link-entity". |
| InnerJoins.UnfilteredRecordMustExist | MarkMpn.FetchXmlToWebAPI/FetchXmlToWebAPIConverter.cs:259-268 | At the first level such a link's first group is `<nav>/<primary key> ne null`. |
| InnerJoins.CollectionIsOneAnyTest | MarkMpn.FetchXmlToWebAPI/FetchXmlToWebAPIConverter.cs:277-296 | A collection link gives exactly one group, `<nav>/any(o<count>:..)`, drawn at the current counter value. |
| InnerJoins.AnyFilterShape | MarkMpn.FetchXmlToWebAPI/FetchXmlToWebAPIConverter.cs:294-295 | The `any` group has a single condition starting with `<nav>/any(<variable>:`. |
| InnerJoins.RangeVariablesDistinct | MarkMpn.FetchXmlToWebAPI/FetchXmlToWebAPIConverter.cs:279 | Any two range variables drawn in one translation are different. |
| InnerJoins.InnerJoinFiltersCount | MarkMpn.FetchXmlToWebAPI/FetchXmlToWebAPIConverter.cs:244-299 | The counter advances by exactly the number of collection-valued inner links walked, one range variable each. |
| InnerJoins.InnerJoinFilterCount | MarkMpn.FetchXmlToWebAPI/FetchXmlToWebAPIConverter.cs:250-297 | One inner link draws one range variable for itself when it is a collection, plus those of its nested inner links. |
| InnerJoins.ConvertInnerJoinFilters | MarkMpn.FetchXmlToWebAPI/FetchXmlToWebAPIConverter.cs:244-299 | The `foreach` loop with a `ref` counter returns the specification's filters and final counter, or its error. |
| InnerJoins.ConvertInnerJoinLink | MarkMpn.FetchXmlToWebAPI/FetchXmlToWebAPIConverter.cs:250-297 | The loop body for one link agrees with its specification. |
| InnerJoins.SingleRecordJoin | MarkMpn.FetchXmlToWebAPI/FetchXmlToWebAPIConverter.cs:255-276 | The single-valued branch agrees with its specification. |
| InnerJoins.CollectionJoin | MarkMpn.FetchXmlToWebAPI/FetchXmlToWebAPIConverter.cs:277-296 | The collection branch, which draws `o<count>` and then increments `count`, agrees with its specification. |
| ODataQuery.FilterOData.ToString | MarkMpn.FetchXmlToWebAPI/FetchXmlToWebAPIConverter.cs:55-68 | A group without conditions or subgroups renders as null. Any other group renders between parentheses (member texts by ODataQuery.ConditionsJoined, ODataQuery.TwoConditionsJoined and ODataQuery.ConditionThenGroup). |
| ODataQuery.NonEmptyKeepsAll | MarkMpn.FetchXmlToWebAPI/FetchXmlToWebAPIConverter.cs:60-62 | Conditions that all render to something are all kept, in order. |
| ODataQuery.ConditionsJoined | MarkMpn.FetchXmlToWebAPI/FetchXmlToWebAPIConverter.cs:55-68 | A group of non-empty conditions renders as `(` the conditions joined by ` and ` or ` or ` `)`. |
| ODataQuery.TwoConditionsJoined | MarkMpn.FetchXmlToWebAPI/FetchXmlToWebAPIConverter.cs:55-68 | Two conditions render as `(<a> and <b>)` or `(<a> or <b>)`. |
| ODataQuery.ConditionThenGroup | MarkMpn.FetchXmlToWebAPI.Tests/FetchXmlConversionTests.cs:105 | Conditions come before nested groups, and a nested group keeps its own parentheses: `(<condition> and (<nested>))`. |
| ODataQuery.EmptyConditionDropped | MarkMpn.FetchXmlToWebAPI/FetchXmlToWebAPIConverter.cs:62 | An empty condition text is dropped: a group whose only condition is empty renders as `()`. |
| ODataQuery.NonEmpty | MarkMpn.FetchXmlToWebAPI/FetchXmlToWebAPIConverter.cs:62 | Exactly the non-empty texts are kept. |
| ODataQuery.RenderedGroups | MarkMpn.FetchXmlToWebAPI/FetchXmlToWebAPIConverter.cs:61-62 | At most one rendering per subgroup: those that render as null are dropped, so no kept rendering is empty. |
| ODataQuery.GroupTexts | MarkMpn.FetchXmlToWebAPI/FetchXmlToWebAPIConverter.cs:38 | One text per group, in order, with a null group rendered as nothing. |
| ODataQuery.OrderTexts | MarkMpn.FetchXmlToWebAPI/FetchXmlToWebAPIConverter.cs:107 | One text per sort key, in order. |
| ODataQuery.ExpandTexts | MarkMpn.FetchXmlToWebAPI/FetchXmlToWebAPIConverter.cs:35 | One `<property>(<options>)` text per expand, in order. |
| ODataQuery.ExpandedOne | MarkMpn.FetchXmlToWebAPI/FetchXmlToWebAPIConverter.cs:35 | A single expand renders as its property followed by its own options in parentheses. |
| ODataQuery.ExpandedSelectAndFilter | MarkMpn.FetchXmlToWebAPI.Tests/FetchXmlConversionTests.cs:327 | An expand with `$select` and `$filter` renders as `<property>($select=<columns>;$filter=<groups>)`: its options are separated by `;`. |
| ODataQuery.ExpandedBare | MarkMpn.FetchXmlToWebAPI/FetchXmlToWebAPIConverter.cs:29-44 | An expand with nothing of its own renders as `<property>()`. |
| ODataQuery.EntityOData.constructor | MarkMpn.FetchXmlToWebAPI/FetchXmlToWebAPIConverter.cs:71-80 | A new root query has no name, no options and no `$top`. |
| ODataQuery.OptionFrom | MarkMpn.FetchXmlToWebAPI/FetchXmlToWebAPIConverter.cs:29-39 | Looking up which option a part sets, from a position on, gives either no option or one at or after that position. |
| ODataQuery.Options | MarkMpn.FetchXmlToWebAPI/FetchXmlToWebAPIConverter.cs:83-111 | The options set by a list of parts include the option of every part. |
| ODataQuery.OptionsAppend | MarkMpn.FetchXmlToWebAPI/FetchXmlToWebAPIConverter.cs:103-110 | The options of appended parts are the union of both. |
| ODataQuery.OptionOfNamed | MarkMpn.FetchXmlToWebAPI/FetchXmlToWebAPIConverter.cs:29-39 | A part written as `$<option>=<value>` sets that option, whatever the value. |
| ODataQuery.OptionPartSets | MarkMpn.FetchXmlToWebAPI/FetchXmlToWebAPIConverter.cs:31-38 | An option is written at most once, and only when present. |
| ODataQuery.PartsInCanonicalOrder | MarkMpn.FetchXmlToWebAPI/FetchXmlToWebAPIConverter.cs:83-111 | An aggregate query has the single part `$apply`. Any other query writes `$select`, `$expand`, `$filter`, `$orderby` and `$top` in that order, each once and exactly when its list is non-empty or the top is set. |
| ODataQuery.PartsNonEmpty | MarkMpn.FetchXmlToWebAPI/FetchXmlToWebAPIConverter.cs:83-111 | No part is empty. |
| ODataQuery.QueryMarkIffOptions | MarkMpn.FetchXmlToWebAPI/FetchXmlToWebAPIConverter.cs:113-118 | The URL is `/<collection>` exactly when there are no parts. Otherwise it is `/<collection>?` followed by the parts joined by `&`. |
| ForwardConverter.FirstEntity | MarkMpn.FetchXmlToWebAPI/FetchXmlToWebAPIConverter.cs:173 | The entity found is a child of `<fetch>`. None is found only when there is no `<entity>` child. |
| ForwardConverter.ConvertTop | MarkMpn.FetchXmlToWebAPI/FetchXmlToWebAPIConverter.cs:182-185 | An absent (empty) `top` is exactly the case that sets no limit; any limit set lies in the `Int32` range, and other text fails as `Int32.Parse` does. |
| ForwardConverter.TopRoundTrip | MarkMpn.FetchXmlToWebAPI/FetchXmlToWebAPIConverter.cs:182-185 | Any `Int32` written as `top` is read back as that limit. |
| ForwardConverter.ConvertODataSpec | MarkMpn.FetchXmlToWebAPI/FetchXmlToWebAPIConverter.cs:171-209 | A `<fetch>` without children fails, and one without `<entity>` fails with "Fetch must contain entity definition". A query built is for the entity set of the root entity and carries `top`. An entity without children gives the bare collection; otherwise `$select`, `$orderby`, `$filter` (the `<filter>` groups, then the inner-join filters) and `$expand` are the conversions of the entity's children, and groups and aggregates those of its attributes for an aggregate query only. |
| ForwardConverter.EntityLists | MarkMpn.FetchXmlToWebAPI/FetchXmlToWebAPIConverter.cs:190-208 | Appending the lists keeps the collection and `$top`, appends the groups and aggregates only for an aggregate query, succeeds exactly when every list converts, and then appends each conversion to its option. |
| ForwardConverter.WithSelect | MarkMpn.FetchXmlToWebAPI/FetchXmlToWebAPIConverter.cs:199-206 | From `$select` on: succeeds exactly when every list converts, appends each conversion to its option (the inner-join filters after the `<filter>` groups), and fails with the select's error when the select fails. |
| ForwardConverter.WithOrder | MarkMpn.FetchXmlToWebAPI/FetchXmlToWebAPIConverter.cs:200-206 | From `$orderby` on: appends the sort keys, the filter groups then inner-join filters, and the expands, leaving `$select` as it was; fails with the order's error when the order fails. |
| ForwardConverter.WithFilters | MarkMpn.FetchXmlToWebAPI/FetchXmlToWebAPIConverter.cs:201-206 | From `$filter` on: appends the filter groups then inner-join filters, and the expands; fails with the filters' error when they fail. |
| ForwardConverter.WithJoins | MarkMpn.FetchXmlToWebAPI/FetchXmlToWebAPIConverter.cs:202-206 | From `$expand` on: appends the expands and the inner-join filters; fails with the joins' error when they fail. |
| ForwardConverter.WithInnerJoinFilters | MarkMpn.FetchXmlToWebAPI/FetchXmlToWebAPIConverter.cs:204-206 | The inner-join filters, numbered from `o1`, are appended after the filter groups already there, and nothing else changes; it fails exactly with the walk's error. |
| ForwardConverter.ConvertOData | MarkMpn.FetchXmlToWebAPI/FetchXmlToWebAPIConverter.cs:171-209 | The method that fills a fresh `EntityOData` object succeeds exactly when the specification does, with the same error. Its object then holds the specification's query. |
| ForwardConverter.AddEntityLists | MarkMpn.FetchXmlToWebAPI/FetchXmlToWebAPIConverter.cs:190-208 | Appending every list to the object leaves the query the specification gives, or fails with its error. |
| ForwardConverter.AddQueryLists | MarkMpn.FetchXmlToWebAPI/FetchXmlToWebAPIConverter.cs:199-206 | The same for the lists from `$select` on. |
| ForwardConverter.AddListsFromOrder | MarkMpn.FetchXmlToWebAPI/FetchXmlToWebAPIConverter.cs:200-206 | The same for the lists from `$orderby` on. |
| ForwardConverter.AddListsFromFilters | MarkMpn.FetchXmlToWebAPI/FetchXmlToWebAPIConverter.cs:201-206 | The same for the lists from `$filter` on. |
| ForwardConverter.AddListsFromJoins | MarkMpn.FetchXmlToWebAPI/FetchXmlToWebAPIConverter.cs:202-206 | The same for the lists from `$expand` on. |
| ForwardConverter.AddSelect | MarkMpn.FetchXmlToWebAPI/FetchXmlToWebAPIConverter.cs:199 | `Select.AddRange`: on success the converted names are appended and nothing else changes. On failure the object is unchanged. |
| ForwardConverter.AddOrder | MarkMpn.FetchXmlToWebAPI/FetchXmlToWebAPIConverter.cs:200 | `OrderBy.AddRange`, in the same way. |
| ForwardConverter.AddFilters | MarkMpn.FetchXmlToWebAPI/FetchXmlToWebAPIConverter.cs:201 | `Filter.AddRange`, in the same way. |
| ForwardConverter.AddJoins | MarkMpn.FetchXmlToWebAPI/FetchXmlToWebAPIConverter.cs:202 | `Expand.AddRange`, in the same way. |
| ForwardConverter.AddInnerJoinFilters | MarkMpn.FetchXmlToWebAPI/FetchXmlToWebAPIConverter.cs:204-206 | The inner-join filters are appended with the counter starting at 1, as the specification says. |
| ForwardConverter.ConvertFetchXmlToWebAPI | MarkMpn.FetchXmlToWebAPI/FetchXmlToWebAPIConverter.cs:152-169 | Without a connection the result is "Must have an active connection to CRM to compose OData query.". Otherwise it is the organization URL followed by the rendered query, or the translation's error. |
| ForwardConverter.AggregateQueryIsApplyOnly | MarkMpn.FetchXmlToWebAPI/FetchXmlToWebAPIConverter.cs:85-100 | An aggregate query with aggregated attributes renders only `$apply`. |
| ReverseNames.SanitizeLookupProperty | MarkMpn.FetchXmlToWebAPI/WebAPIToFetchXmlConverter.cs:300-309 | Strips at most a leading `_` and a trailing `_value`. |
| ReverseNames.SanitizeInvertsLookupName | MarkMpn.FetchXmlToWebAPI/WebAPIToFetchXmlConverter.cs:300-309 | It inverts the forward `GetPropertyName` for every lookup: `_<n>_value` gives back `n`. |
| ReverseNames.SanitizeKeepsPlainName | MarkMpn.FetchXmlToWebAPI/WebAPIToFetchXmlConverter.cs:300-309 | It leaves unchanged the property of a non-lookup attribute whose name neither starts with `_` nor ends with `_value`. |
| ReverseNames.GetPrimaryKey | MarkMpn.FetchXmlToWebAPI/WebAPIToFetchXmlConverter.cs:311-320 | Succeeds exactly for a single structural key, and gives its name. A compound key gives "Unhandled compound key". |
| ReverseNames.ParseEntity | MarkMpn.FetchXmlToWebAPI/WebAPIToFetchXmlConverter.cs:143-160 | Succeeds exactly for one entity-set segment of a collection with a named element type, giving an entity of that name without children. More segments give "Unhandled multiple path segments". |
| ReverseNames.SetsNamed | MarkMpn.FetchXmlToWebAPI/WebAPIToFetchXmlConverter.cs:111 | Exactly the entity sets whose type has the given name. |
| ReverseNames.SingleSetNamed | MarkMpn.FetchXmlToWebAPI/WebAPIToFetchXmlConverter.cs:111 | `Single`: succeeds exactly when one entity set has the type, and gives it. |
| ReverseSelect.SingleDependent | MarkMpn.FetchXmlToWebAPI/WebAPIToFetchXmlConverter.cs:190 | Succeeds exactly when the partner has exactly one dependent property, and gives it. |
| ReverseSelect.LinkKeys | MarkMpn.FetchXmlToWebAPI/WebAPIToFetchXmlConverter.cs:182-214 | A single-valued expand joins the target's key (`from`) to the navigation identifier (`to`). A collection expand joins the sanitized dependent property of the partner (`from`) to the declaring type's key (`to`). Any other target gives "Unhandled navigation property target type". |
| ReverseSelect.SelectedItem | MarkMpn.FetchXmlToWebAPI/WebAPIToFetchXmlConverter.cs:172-224 | A selected property becomes an attribute of that name with no alias, grouping or aggregate. An expanded navigation property becomes an outer link without alias whose entity name, `from` and `to` are the keys of its navigation property, and whose children are the nested selection ordered by rank (so RankOrder.OrderByRankSorted, RankOrder.OrderByRankStable and RankOrder.InsertByRankPermutes apply to them). An expansion succeeds exactly when its single navigation segment has keys and its nested selection translates, and a nested error is its error. |
| ReverseSelect.SelectedItemList | MarkMpn.FetchXmlToWebAPI/WebAPIToFetchXmlConverter.cs:172-225 | The list succeeds exactly when every item does, giving one result per item in order. |
| ReverseSelect.SelectedItems | MarkMpn.FetchXmlToWebAPI/WebAPIToFetchXmlConverter.cs:162-228 | No clause gives nothing. Otherwise `<all-attributes>` comes first when everything is selected, then one item per select item in order. The clause succeeds exactly when every item does. |
| ReverseSelect.ParseSelect | MarkMpn.FetchXmlToWebAPI/WebAPIToFetchXmlConverter.cs:162-228 | The `foreach` that builds the list gives exactly the specification's items or error. |
| ReverseSelect.ParseSelectedItem | MarkMpn.FetchXmlToWebAPI/WebAPIToFetchXmlConverter.cs:172-224 | The loop body gives exactly the specification's item or error. |
| ReverseSelect.SelectedItemIsOuterLink | MarkMpn.FetchXmlToWebAPI/WebAPIToFetchXmlConverter.cs:187-209 | Every link produced, at every depth, has link type `outer`. |
| ReverseSelect.SelectedListIsOuterLinks | MarkMpn.FetchXmlToWebAPI/WebAPIToFetchXmlConverter.cs:172-225 | The same for a list of items. |
| ReverseSelect.SelectedItemsAreOuterLinks | MarkMpn.FetchXmlToWebAPI/WebAPIToFetchXmlConverter.cs:162-228 | The same for a whole clause. |
| ReverseSelect.OuterLinksPermuted | MarkMpn.FetchXmlToWebAPI/WebAPIToFetchXmlConverter.cs:193 | Reordering the items by rank keeps every link outer. |
| ReverseFilter.LeafCondition | MarkMpn.FetchXmlToWebAPI/WebAPIToFetchXmlConverter.cs:271-297 | A leaf succeeds exactly for a property (possibly inside a conversion) compared with `eq` to a non-null constant. It gives an `eq` condition on the entity itself (no `entityname`) whose attribute is the property's name, read through the conversion, and whose value is the constant's text. A left side that is not a property gives "Unhandled filter source". |
| ReverseFilter.ConvertedPropertyUnwrapped | MarkMpn.FetchXmlToWebAPI/WebAPIToFetchXmlConverter.cs:273-280 | A property inside a type conversion gives the same condition as the bare property: `eq` on its name with the constant's text. |
| ReverseFilter.ParseCondition | MarkMpn.FetchXmlToWebAPI/WebAPIToFetchXmlConverter.cs:251-298 | A binary node becomes a filter or a condition. |
| ReverseFilter.ParseClauseCondition | MarkMpn.FetchXmlToWebAPI/WebAPIToFetchXmlConverter.cs:240-249 | No clause, or an expression that is not binary, gives nothing. A binary expression gives its translation. |
| ReverseFilter.ParseFilter | MarkMpn.FetchXmlToWebAPI/WebAPIToFetchXmlConverter.cs:230-238 | Fails exactly when the translation does. The result is always a filter: a bare condition is wrapped in a one-condition `and` filter. |
| ReverseFilter.Render | MarkMpn.FetchXmlToWebAPI/WebAPIToFetchXmlConverter.cs:251-298 | The partner of `ParseCondition`: a well-formed filter or condition is written back as a binary node. |
| ReverseFilter.ParsedIsWellFormed | MarkMpn.FetchXmlToWebAPI/WebAPIToFetchXmlConverter.cs:251-298 | Every translation is well formed: two-item `and`/`or` filters over nested filters, or `eq` conditions. |
| ReverseFilter.ParseRenderRoundTrip | MarkMpn.FetchXmlToWebAPI/WebAPIToFetchXmlConverter.cs:251-298 | Round trip: translating the node a well-formed filter is written as gives back that filter. |
| ReverseFilter.NestedFilterExample | MarkMpn.FetchXmlToWebAPI/WebAPIToFetchXmlConverter.cs:253-268 | `name eq 'FXB' and (websiteurl eq .. or websiteurl eq ..)` becomes an `and` filter holding the condition and an `or` filter. |
| ReverseFilter.SimpleFilterExample | MarkMpn.FetchXmlToWebAPI/WebAPIToFetchXmlConverter.cs:230-238 | `name eq 'FXB'` becomes a one-condition filter. |
| RankOrder.Rank | MarkMpn.FetchXmlToWebAPI/WebAPIToFetchXmlConverter.cs:322-343 | `GetTypePreference`: ranks run from 0 to 6, and 6 is exactly the rank of what is none of the listed kinds. |
| RankOrder.WithRank | MarkMpn.FetchXmlToWebAPI/WebAPIToFetchXmlConverter.cs:54-56 | The items of one rank, in order, are no more than the items. |
| RankOrder.WithRankMembers | MarkMpn.FetchXmlToWebAPI/WebAPIToFetchXmlConverter.cs:54-56 | They are exactly the items of that rank. |
| RankOrder.InsertByRank | MarkMpn.FetchXmlToWebAPI/WebAPIToFetchXmlConverter.cs:54-56 | Inserting adds exactly one item. |
| RankOrder.InsertByRankPermutes | MarkMpn.FetchXmlToWebAPI/WebAPIToFetchXmlConverter.cs:54-56 | Inserting adds the item and loses nothing. |
| RankOrder.InsertByRankWithRank | MarkMpn.FetchXmlToWebAPI/WebAPIToFetchXmlConverter.cs:54-56 | Inserting puts the item in front of every item of its own rank, and no other rank changes; folded from the right, this keeps equal ranks in input order. |
| RankOrder.InsertByRankSorted | MarkMpn.FetchXmlToWebAPI/WebAPIToFetchXmlConverter.cs:54-56 | Inserting into a sorted list keeps it sorted. |
| RankOrder.InsertByRankMembers | MarkMpn.FetchXmlToWebAPI/WebAPIToFetchXmlConverter.cs:54-56 | Inserting brings in no item other than the one inserted. |
| RankOrder.OrderByRank | MarkMpn.FetchXmlToWebAPI/WebAPIToFetchXmlConverter.cs:54-56 | `OrderBy(GetTypePreference)` is a permutation of its input. |
| RankOrder.OrderByRankSorted | MarkMpn.FetchXmlToWebAPI/WebAPIToFetchXmlConverter.cs:54-56 | The result is sorted by rank. |
| RankOrder.OrderByRankStable | MarkMpn.FetchXmlToWebAPI/WebAPIToFetchXmlConverter.cs:54-56 | The sort is stable: the items of each rank keep their relative order. |
| RankOrder.OrderByRankKeepsSorted | MarkMpn.FetchXmlToWebAPI/WebAPIToFetchXmlConverter.cs:54-56 | A list already sorted by rank is left as it is. |
| ReverseConverter.ParseSorts | MarkMpn.FetchXmlToWebAPI/WebAPIToFetchXmlConverter.cs:125-141 | The `ThenBy` chain becomes one sort per key, in chain order, each on the key's property and descending exactly for `Descending`. It fails exactly when some key is not a property. |
| ReverseConverter.AggregateItems | MarkMpn.FetchXmlToWebAPI/WebAPIToFetchXmlConverter.cs:104-121 | Every expression must be an aggregate expression. Each `$count` gives one count of the key of the query's entity under its own alias, in order; other aggregate expressions give nothing. |
| ReverseConverter.CountAliases | MarkMpn.FetchXmlToWebAPI/WebAPIToFetchXmlConverter.cs:104-121 | The aliases of the `$count` expressions, in order; never more than the expressions. |
| ReverseConverter.CountOf | MarkMpn.FetchXmlToWebAPI/WebAPIToFetchXmlConverter.cs:109-120 | `$count` becomes one `count` attribute on the key, under the expression's alias. |
| ReverseConverter.ParseApply | MarkMpn.FetchXmlToWebAPI/WebAPIToFetchXmlConverter.cs:77-96 | No `$apply` gives no attributes. With one, the attributes grouped by are exactly the `groupby` properties, in order. |
| ReverseConverter.GroupedNamesOfGroupings | MarkMpn.FetchXmlToWebAPI/WebAPIToFetchXmlConverter.cs:87-96 | The grouping properties become attributes grouped by, each under its own name, in order. |
| ReverseConverter.NoGroupedNamesInAggregates | MarkMpn.FetchXmlToWebAPI/WebAPIToFetchXmlConverter.cs:104-121 | Aggregate attributes are never grouped by. |
| ReverseConverter.ApplyGroupsByGroupingProperties | MarkMpn.FetchXmlToWebAPI/WebAPIToFetchXmlConverter.cs:82-122 | The attributes grouped by are exactly the grouping properties of the `groupby` transformations, in order. |
| ReverseConverter.NoGroupedNamesInCounts | MarkMpn.FetchXmlToWebAPI/WebAPIToFetchXmlConverter.cs:109-120 | Attributes without `groupby` contribute no grouped names. |
| ReverseConverter.ConvertWebAPIToFetchXml | MarkMpn.FetchXmlToWebAPI/WebAPIToFetchXmlConverter.cs:36-62 | The method that appends the filter, the sorts and the aggregates and then sorts gives exactly the specified `<fetch>` or error. |
| ReverseConverter.ConvertedEntity | MarkMpn.FetchXmlToWebAPI/WebAPIToFetchXmlConverter.cs:40-56 | The `<fetch>` has one `<entity>` named by the path. Its children are a permutation of the gathered items, sorted by rank, with each rank in the order gathered. |
| ReverseConverter.AggregateIffApplied | MarkMpn.FetchXmlToWebAPI/WebAPIToFetchXmlConverter.cs:58-62 | `aggregate` is set exactly when `$apply` produced at least one attribute. |
| ReverseConverter.SortErrorsComeLast | MarkMpn.FetchXmlToWebAPI/WebAPIToFetchXmlConverter.cs:45-51 | A bad sort makes the translation fail. Because the sorts are produced lazily, an `$apply` error is reported in its place. |
| ReverseConverter.TopReadsBack | MarkMpn.FetchXmlToWebAPI/WebAPIToFetchXmlConverter.cs:38 | The `top` written is read back by the forward translator as the same limit. |

## Left out

- XML (de)serialization is not modelled (`XmlSerializer`, FetchXmlToWebAPIConverter.cs lines 159-162 and WebAPIToFetchXmlConverter.cs lines 64-74). The forward model starts from the `FetchXml` datatypes, and the reverse model returns them.
- URI, regular-expression and OData parsing are not modelled (WebAPIToFetchXmlConverter.cs lines 27-35). The reverse model starts from the `ODataTree` datatype, the parser's result with one field per `Parse..` call. Errors the parser itself raises, such as those of `ParseTop`, are not modelled.
- The metadata provider and the service model are not modelled; only the answers they give are. Metadata is an immutable map, and the entity sets are a list. `IsConnected` is a parameter of `ConvertFetchXmlToWebAPI`.
- `FormatValue` for date/time, GUID, decimal and double values is a parameter (`ValueCodec`), not modelled. These go through `DateTimeOffset.Parse`, `Guid.Parse` and culture-dependent `Convert.ChangeType`, which are library code and floating point. The string, boolean, int and long cases are modelled.
- ConditionTranslation.FormatValue: for the codec-supplied types the contract states only that a null value fails.
- The exact texts of library exceptions are approximations: the messages of a null dereference, of a null argument to LINQ, and of `Int32.Parse` format and overflow errors. They are `NullReference`, `Format` and `Overflow` errors with .NET's usual text.
- The inner-join walk passes `path + propertyName + "/"` to a single-valued link's nested links (FetchXmlToWebAPIConverter.cs line 273), though `propertyName` already begins with `path`. This is modelled as written. It changes the path only below the second level, where the nested-link refusals usually apply first.
- ConditionTranslation.LikePatternRoundTrip covers only texts without `]`: a bracket holding `]` is accepted by the scan, but `Replace` leaves it as written.
- RankOrder.OrderByRank is an insertion sort. It is proved to be stable and a permutation, and sorted by rank, which is what `OrderBy` promises, not how `OrderBy` sorts.
- ForwardLists.Collect stands for fully enumerating a lazy `Select`, and the first failing element decides the error. Deferred evaluation beyond that order is not modelled.
- ReverseConverter.ParseApply: its contract does not state the counted attributes of a whole `$apply`. ReverseConverter.AggregateItems states them for one `aggregate`: one count per `$count`, under its alias, in order.
- Corrected link resolution. The forward translator resolves links with the corrected definitions of the two findings below, not the code as written. It therefore differs from the source on two inputs:
  - A: a many-to-many link from the entity-2 side whose nested link's `from` is not `Entity1IntersectAttribute`. The source fails with "Cannot find metadata for relation" (FetchXmlToWebAPIConverter.cs line 1052); the model resolves the link.
  - B: a condition's `entityname` that names a link after a sibling link without children. The source throws `ArgumentNullException` (line 917); the model finds the link.
  Navigation.LinkItemToNavigationPropertyAsWritten and Navigation.FindLinkEntityAsWritten model the code as written. The members listed next differ from the source on inputs A and B for this reason.
- ConditionTranslation.ConditionTarget: differs from the source on inputs A and B (see "Corrected link resolution" above).
- ConditionTranslation.LinkTarget: differs from the source on inputs A and B (see "Corrected link resolution" above).
- ConditionTranslation.GetCondition: differs from the source on inputs A and B (see "Corrected link resolution" above).
- ConditionTranslation.ConditionOfForm: differs from the source on inputs A and B (see "Corrected link resolution" above).
- ForwardLists.ConvertFilters: differs from the source on inputs A and B (see "Corrected link resolution" above).
- ForwardLists.ConvertFilter: differs from the source on inputs A and B (see "Corrected link resolution" above).
- ForwardLists.ConvertJoins: differs from the source on inputs A and B (see "Corrected link resolution" above).
- ForwardLists.ConvertJoin: differs from the source on inputs A and B (see "Corrected link resolution" above).
- InnerJoins.InnerJoinFilters: differs from the source on inputs A and B (see "Corrected link resolution" above).
- InnerJoins.InnerJoinFilter: differs from the source on inputs A and B (see "Corrected link resolution" above).
- InnerJoins.ConvertInnerJoinFilters: differs from the source on inputs A and B (see "Corrected link resolution" above).
- ForwardConverter.ConvertODataSpec: differs from the source on inputs A and B (see "Corrected link resolution" above).
- ForwardConverter.ConvertOData: differs from the source on inputs A and B (see "Corrected link resolution" above).
- ForwardConverter.ConvertFetchXmlToWebAPI: differs from the source on inputs A and B (see "Corrected link resolution" above).
- Behaviour found only in tests, outside the two converters, is not part of this model: any/all link filters, paging, `objecttypecode` rewriting, `/Value` on managed properties, and a default `$select` of the key.

## Findings

| source | as written | input that shows it | evidently intended | confidence | as-written member | corrected member |
|---|---|---|---|---|---|---|
| MarkMpn.FetchXmlToWebAPI/FetchXmlToWebAPIConverter.cs:1052 | The entity-2 side of a many-to-many relationship compares `Entity1IntersectAttribute` with the nested link's `from`. | A link from entity 2 to the intersect entity on `Entity2IntersectAttribute`, with a nested link to entity 1 joined by `to` = `Entity1IntersectAttribute` and `from` = entity 1's key (any key other than the intersect attribute). The relationship is not recognised, and the translation fails with "Cannot find metadata for relation". | Compare the nested link's `to`, as the entity-1 side does at line 1030. `to` is the nested link's attribute on the intersect entity. | not executed | Navigation.LinkItemToNavigationPropertyAsWritten, Navigation.ManyToManyAsWrittenNeedsEqualKeys | Navigation.LinkItemToNavigationProperty, Navigation.ManyToManyResolvesFromBothSides |
| MarkMpn.FetchXmlToWebAPI/FetchXmlToWebAPIConverter.cs:917 | `FindLinkEntity` recurses into every link that does not match, including one without children, whose `Items` is null. | A condition with `entityname="b"` under an entity whose first link `a` has no children and whose second link is `b`. `OfType` on the null list throws `ArgumentNullException`, so `b` is never reached. | Skip a link without children and go on with its siblings, as `ConvertOData` does for an entity without children (line 188). | not executed | Navigation.FindLinkEntityAsWritten, Navigation.ChildlessLinkStopsSearchAsWritten | Navigation.FindLinkEntity, Navigation.ChildlessLinkSkipped, Navigation.SkippingChildlessAgrees |
