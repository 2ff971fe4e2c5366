# A verified model of the chat assistant's command router, message renderer and session store

The assistant is a single-page chat application. Three pieces of its logic are
modelled here as pure Dafny functions over strings and sequences. All three are
sequential and deterministic once clocks, randomness and the network are
parameters.

- **The command router** (`router.dfy`, `router_facts.dfy`). A typed command is
  trimmed and run through an ordered cascade of twelve rules. The first rule that
  fires decides the answer. The rules are:
  1. the syllabus PDF of a subject;
  2. a web search for a book;
  3. opening a site;
  4. a curated course video;
  5. a video category (or the entertainment fallback);
  6. an encyclopedia lookup for a question;
  7. a curated topic article;
  8. a general topic article;
  9. a how-to template;
  10. a "best" template;
  11. a comparison template;
  12. the default template.

  Every test is a plain substring or prefix test, not a word match. Every table
  is scanned in declaration order. `Router.Classify` returns a `Strategy` that
  names the rule and its payload. The lookup's outcome is a boolean parameter.

- **The message renderer** (`renderer.dfy`). `formatAssistantMessage` makes three
  whole-text rewrites: headings, bold and links. It then cuts the text at line
  feeds, trims each line and runs a one-flag machine ("a list is open") over the
  lines. The model produces the pushed pieces as a sequence of `Token`s. The HTML
  is their concatenation.

- **The session store** (`store.dfy`). The store is a map from session id to
  messages, title and creation time. It also keeps the ids' insertion order and
  the current id. The operations are `createNewChat`, `addMessage`,
  `updateChatTitle` and the sidebar's newest-first history.

`text.dfy` holds the host-language string primitives: `includes`, `startsWith`,
`trim` with the ECMAScript whitespace set, and the decimal rendering of a clock
reading. `wrappers.dfy` holds `Option`.

The bold and link patterns (`\*\*([^*]+?)\*\*` and
`\[([^\]]+)\]\((https?:\/\/[^\s)]+)\)`) are modelled as left-to-right scans.
The bold repetition is lazy and the link repetitions are greedy. Each one runs
over a class that excludes the character that must follow it, so at a given
position there is at most one match. The scan therefore finds exactly what the
pattern matches.
The multi-line heading patterns `^# (.+)$` and `^## (.+)$` are per-line
rewrites. With the `m` flag, `^` and `$` match at all four ECMAScript line
terminators, so those lines are cut at each of them. The later `split('\n')`
cuts at line feeds only.

## Model

| member | source | states |
|---|---|---|
| Router.FirstIndexSpec | script.js:864-866 | A `for … of` scan over a table that returns on the first hit finds the earliest entry satisfying the test, and finds nothing exactly when no entry does |
| Router.SubjectOf | script.js:657-661 | The subject chosen names a mentioned alias, and no subject tested earlier (cse, ece, mech, civil, it) is mentioned; none is chosen exactly when no alias occurs |
| Router.PdfGuard | script.js:656-662 | Rule 1 fires exactly when "pdf" or "syllabus" occurs and some subject alias is mentioned |
| Router.OpenTarget | script.js:677 | The site is the text after "open " with the whitespace at both ends taken off: it stands in the command with only whitespace between "open " and it and only whitespace after it, and it neither starts nor ends with whitespace. On a trimmed command it is non-empty and ends where the command ends |
| Router.SiteUrl | script.js:678 | A site mentioning "http" is opened as it is; otherwise the address is "https://", the site with its spaces removed, then ".com" |
| Router.CourseIndexSpec | script.js:515-530 | The course scan picks the first library entry asked for by "best k", "k course", "k tutorial" or "learn k", and picks none exactly when no entry is asked for |
| Router.CourseGuard | script.js:685 | Rule 4 fires exactly when some library entry is asked for, "best k" included |
| Router.StripNoFiller | script.js:580 | The filler-word removal keeps text in which no filler word starts anywhere |
| Router.CutOf | script.js:580 | Every text can be cut, left to right, into pieces: a filler word that is the first in table order to start at its position, or a single character at a position where no filler word starts |
| Router.CutSpells | script.js:580 | The pieces of a cut put back in order give the text back, so nothing is skipped or reordered |
| Router.CutUnique | script.js:580 | A text has only one such cut |
| Router.StripCut | script.js:580 | The filler-word removal returns exactly the kept characters of the cut, in order |
| Router.CategoryIndexSpec | script.js:582-584 | The category scan picks the first category found in the command or in the cleaned request, and picks none exactly when no category is found in either |
| Router.Playlist | script.js:583-616 | A category plays from that category's list, and the fallback plays from the entertainment list |
| Router.PrefixIndex | script.js:695 | The phrase stripped is the first table phrase, in table order, that stands at the head of the command followed by a blank. None is stripped exactly when no table phrase is followed by a blank there |
| Router.StripQuestion | script.js:695 | The query is what follows the stripped phrase, trimmed, or the trimmed command when no phrase was stripped. It is trimmed, and it is non-empty when a phrase was stripped from a trimmed command |
| Router.QuestionQueryNonEmpty | script.js:694-696 | A trimmed command starting with an interrogative word always leaves a non-empty query, so the emptiness test never stops the lookup |
| Router.QuestionGuard | script.js:694-700 | On a trimmed command rule 6 fires exactly for an interrogative command whose lookup succeeds |
| Router.CuratedIndexSpec | script.js:864-866 | The curated scan picks the first topic that occurs in the command or contains it, and picks none exactly when no topic does |
| Router.CuratedGuard | script.js:703-708 | Rule 7 fires exactly when some curated topic matches the full command |
| Router.GeneralIndexSpec | script.js:911-913 | The general scan picks the first key that occurs in the command, or that contains the command with its blanks removed, and picks none exactly when no key does |
| Router.GeneralGuard | script.js:911-915 | Rule 8 fires exactly when some general topic matches |
| Router.Decide | script.js:653-714 | The answer comes from a rule whose guard holds, and no earlier rule's guard holds: first match wins, and the default always answers |
| Router.Cascade | script.js:653-714 | On a trimmed command the rule that answers fires, and no rule before it fires |
| Router.Classify | script.js:653-654 | The handler trims the command and answers with the first rule that fires on the trimmed command |
| RouterFacts.DecideAnswers | script.js:656-711 | Each rule answers with its own payload: the chosen subject, the site and its address, the library entry's key and video, the category named, the cleaned request or "entertainment" for the fallback, the stripped query, the curated key, and the general key with its article |
| RouterFacts.DecideFirst | script.js:653-714 | Conversely, when rule k is the first whose guard holds, rule k answers |
| RouterFacts.LookupOnlyDecidesQuestions | script.js:694-700 | The lookup outcome changes the answer only when the lookup would have answered; a failed lookup falls through to a rule after 6 |
| RouterFacts.LookupQueryShape | script.js:695-697 | The query sent to the encyclopedia comes from an interrogative command, is non-empty and is trimmed |
| RouterFacts.CourseAnswer | script.js:684 | A trimmed command that passes rules 1 to 3 and asks for a library entry plays the first entry it asks for, with that entry's video |
| RouterFacts.PythonCourse | script.js:515-530 | "python course" plays the Python course, whatever the lookup would say |
| RouterFacts.QuestionAnswer | script.js:694-700 | A trimmed question that passes rules 1 to 5 and whose lookup succeeds is answered with the summary for its stripped query |
| RouterFacts.FirstPrefix | script.js:695 | "what is", a blank and a trimmed query are stripped down to that query |
| RouterFacts.WhatIsLookup | script.js:694-700 | "what is q", for a trimmed q avoiding the letters the earlier rules' phrases need, is looked up as q when the lookup succeeds |
| RouterFacts.WhatIsAiQuery | script.js:695 | "what is ai" is led by the table's first phrase and leaves the query "ai" |
| RouterFacts.WhatIsAi | script.js:694-700 | "what is ai", with a successful lookup, is answered with the summary for "ai" |
| RouterFacts.JavaShadowsJavaScript | script.js:515-521 | "best javascript" or "learn javascript" also asks for "java", so the course scan stops at "python" or "java" |
| RouterFacts.CShadowsCppAndCss | script.js:515-521 | "best c++", "learn c++", "best css" and "learn css" also ask for "c", so the scan stops at or before "c" |
| RouterFacts.JavaScriptCourseUnreachable | script.js:685 | Asked for as "best javascript" or "learn javascript", the assistant answers by rule 4 at the latest and never with the JavaScript video |
| RouterFacts.AiFirstCurated | script.js:864-866 | Any command containing "ai" matches the first curated topic |
| RouterFacts.ExplainAnsweredAsAi | script.js:694-708 | "explain" contains "ai": a trimmed command starting with "explain" is answered by rule 7 at the latest, and there with the AI article |
| RouterFacts.GitShadowsGithub | script.js:911-913 | A command containing "github" stops the general scan at a key before "github" ("git" at the latest) |
| RouterFacts.GithubOnlyByReverse | script.js:911-913 | The GitHub topic is only ever chosen for a command that does not contain "github" |
| RouterFacts.EmptyCommandIsAi | script.js:864-866 | The empty command passes rules 1 to 6 and, since every key contains the empty string, gets the AI article. The text box never sends it (script.js:46, 56): this is the handler's own behaviour |
| RouterFacts.BlankCommandIsAi | script.js:654 | A whitespace-only command trims to the empty command and gets the AI article. The text box never sends one either |
| RouterFacts.NoCourse | script.js:517-520 | A command without the letters b, c, u and l asks for no library entry |
| RouterFacts.PdfAnswer | script.js:656-662 | A PDF request that mentions a subject opens that subject's syllabus, before the book search is reached |
| RouterFacts.DigitalLogicIsIt | script.js:656-661 | "digital logic pdf" names no subject, yet "digital" contains "it", so it resolves to the IT syllabus |
| RouterFacts.OpenAnswer | script.js:676-683 | A command starting with "open " that asks for no PDF or book opens the trimmed remainder at its built address |
| RouterFacts.OpenGithub | script.js:676-677 | "open github" names the site "github" |
| RouterFacts.GithubAddress | script.js:678 | The site "github" opens as "https://github.com" |
| RouterFacts.OpenGithubNoPdf | script.js:656-664 | "open github" passes the PDF and book rules |
| RouterFacts.BareSiteUrl | script.js:678 | A blank-free site not mentioning "http" opens as "https://" + site + ".com" |
| Renderer.ToHtmlConcat | script.js:381 | Joining the pushed pieces is compatible with concatenating token sequences |
| Renderer.PassNewlines | script.js:327 | A heading pass neither adds nor removes a line feed |
| Renderer.HeadingsNewlines | script.js:326-330 | Both heading passes keep the message's line feeds |
| Renderer.MainHeading | script.js:327 | A line "# x" becomes the main-heading element around x |
| Renderer.SubHeading | script.js:330 | A line "## x" is left alone by the first pass and becomes the sub-heading element around x |
| Renderer.NotHeading | script.js:326-330 | A line that does not start with "#", an indented heading included, is not rewritten |
| Renderer.RunFromAll | script.js:333 | A greedy character-class run holds only class characters and stops at the first character outside the class |
| Renderer.RunFromStops | script.js:333 | Conversely, a run of class characters followed by a non-class character or the end is exactly what the repetition takes |
| Renderer.BoldAt | script.js:333 | A bold match at the head is two stars, a non-empty star-free run, two stars |
| Renderer.BoldHead | script.js:333 | A bold span at the head becomes a strong element and the rewrite resumes after its closing stars |
| Renderer.BoldNoStar | script.js:333 | Text without a star is left unchanged by the bold rewrite |
| Renderer.BoldNewlines | script.js:333 | The bold rewrite keeps the text's line feeds |
| Renderer.AddressSound | script.js:336 | The address the link scan accepts starts with "http://" or "https://" and holds no blank and no ")" |
| Renderer.LinkSound | script.js:336 | A link the scan accepts has a non-empty text without "]", an address with a scheme and no blank or ")", and spans exactly "[text](url)" |
| Renderer.LinkHead | script.js:336 | A markdown link at the head becomes an anchor that opens in a new window, and the rewrite resumes after its ")" |
| Renderer.LinkNoBracket | script.js:336 | Text without "[" is left unchanged by the link rewrite |
| Renderer.LinkNewlines | script.js:336 | The link rewrite keeps the text's line feeds |
| Renderer.SplitJoin | script.js:339 | Splitting at line feeds loses nothing: joining the pieces with line feeds gives the text back |
| Renderer.JoinSplit | script.js:339 | Joining pieces without line feeds and splitting again gives the pieces back |
| Renderer.SplitCount | script.js:339 | The split yields one piece more than there are line feeds |
| Renderer.KindOf | script.js:346-372 | A trimmed line is blank exactly when empty, a bullet exactly when a marker and a blank lead it, otherwise numbered exactly when digits, "." and a blank lead it, and text in every remaining case. List items are the line without its head and are non-empty and trimmed. A text line is a heading exactly when it holds "<h2" or "<h3" |
| Renderer.BulletItem | script.js:357 | The bullet item is what follows the marker and the blanks after it |
| Renderer.NumberedItem | script.js:358-363 | A line is numbered exactly when digits, ".", and a blank lead it; the item is what follows that head |
| Renderer.TagLineNotList | script.js:352-358 | A line led by a tag is neither a bullet nor a numbered line |
| Renderer.HeadingsKeepHead | script.js:326-330 | The heading passes leave alone a first line that does not start with "#" |
| Renderer.BoldRewrittenTag | script.js:326-336 | After the three rewrites, a message starting with a one-line bold span starts with a tag |
| Renderer.TagFirstLine | script.js:339-358 | When the rewritten text starts with a tag, the first line the machine reads starts with it and is no list item |
| Renderer.BoldFirstLineNotList | script.js:326-358 | Bold runs before the lines are cut, so a message whose first line starts with a bold span, written with "*" like a bullet, has a first rendered line that starts with a tag and is no list item |
| Renderer.LinesOf | script.js:339-344 | The machine reads one trimmed line per line feed of the original message, plus one |
| Renderer.MachineContents | script.js:343-379 | With the list openers and closers dropped, every line yields exactly one token, in order: a line break for a blank line, an item for a list line, a paragraph or the line itself otherwise |
| Renderer.MachineNest | script.js:341-379 | Openers and closers balance and never nest: no opener while a list is open, no closer while none is, and nothing is left open at the end |
| Renderer.PlainLine | script.js:346-374 | A line that is not a list line closes an open list, pushes the one token it stands for, and leaves no list open |
| Renderer.OpenRun | script.js:352-363 | Inside an open list, list lines of either kind only push their items: a numbered line after bullets joins the open list, and vice versa |
| Renderer.ListRun | script.js:352-363 | A run of list lines outside a list pushes one opener chosen by its first line ("<ul>" for a bullet, "<ol>" for a numbered line), then one item per line, and is closed by "</ul>" |
| Renderer.ListCloses | script.js:346-379 | An open list is closed with "</ul>" by the next non-list line or by the end, so an "<ol>" is closed by "</ul>" |
| Renderer.RenderShape | script.js:325-382 | The rendered tokens are well nested and carry exactly one token per line of the message |
| Renderer.FormatAssistantMessage | script.js:325-382 | The formatter's tokens are the rendered ones, well nested, one per line, and its HTML is their concatenation |
| Renderer.RunMachine | script.js:343-379 | The loop with the list flag and the final close pushes exactly the machine's tokens |
| Renderer.JoinTokens | script.js:381 | The join concatenates the pieces' HTML in order |
| Store.SessionId | script.js:162 | A session id is "chat-" followed by decimal digits that read back as the clock reading |
| Store.SessionIdCollides | script.js:162-163 | Two sessions get the same id exactly when they are created in the same millisecond |
| Store.MakeTitle | script.js:261 | A first message of at most 30 characters is the title verbatim; a longer one gives its first 30 characters followed by "...", 33 in all |
| Store.CreateNewChat | script.js:161-167 | A new empty "New chat" session under the clock's id becomes current; every other session is kept; a colliding id is overwritten in place |
| Store.CreateNewChatValid | script.js:161-167 | Creating a session keeps the order free of duplicates and in step with the map |
| Store.UpdateChatTitle | script.js:260-262 | Only the named session's title changes, to the title made from the message |
| Store.AddMessage | script.js:273-289 | With no current session one is created first. Exactly one message is appended to the current session, and every other session is untouched. The title becomes the message's title exactly when this is the session's first user message; otherwise it is kept. A session created here joins the end of the order unless its id collides, and then the order is kept |
| Store.AddMessageValid | script.js:273-289 | Adding a message keeps the store's invariant |
| Store.TitleSettles | script.js:286-288 | Once a session holds a user message, no later message changes its title |
| Store.History | script.js:187-188 | The sidebar order is a permutation of the stored ids |
| Store.HistoryNewestFirst | script.js:187-188 | The sidebar order is sorted newest first |
| Store.HistoryStable | script.js:187-188 | The sort is stable: sessions created at the same time keep their insertion order |
| Store.HistoryLabels | script.js:183-196 | The sidebar shows one label per stored session, in the sorted history's order and so newest first, each the session's title or "New chat" when the title is empty |
| Text.ContainsIff | script.js:656 | The `includes` scan agrees with the positional definition of a substring |
| Text.TrimWithin | script.js:677 | Trimming the text after a position leaves a piece of the text with only whitespace around it |
| Text.Trim | script.js:654 | `trim` removes whitespace only, from both ends, and leaves text that neither starts nor ends with whitespace |
| Text.DecimalRoundTrip | script.js:162 | Reading the decimal rendering of a clock reading gives the reading back |

## Left out

- Lower-casing: the classifier takes the command already lower-cased, because `toLowerCase` is full Unicode case mapping. Strings are sequences of characters; UTF-16 code units and surrogate pairs are not modelled.
- The book-title extraction pattern (script.js:665) is a backtracking regular expression. On a command containing "book" or "pdf" it always matches with a non-empty title, so rule 2 is modelled as firing exactly then, and the title is not computed.
- The long response templates, the DOM and UI wiring, the welcome screen, the sidebar and dark-mode toggles, and speech synthesis and recognition are presentation only.
- The encyclopedia lookup is network I/O. Only its boolean outcome enters the classifier, as `lookupOk`. Its acceptance tests on the response are not modelled.
- Persistence (`localStorage`, JSON) and the export are library serialisation and are not modelled. `Store.Load` only takes a saved map and order as given.
- `Math.random`: a video strategy names its category. `Router.Playlist` gives the list the random pick is drawn from, and the pick itself is left out.
- Clocks: `Date.now()` and `new Date().toISOString()` are natural-number parameters (milliseconds). The history sort subtracts the parsed instants (script.js:188), so comparing the numbers is exactly what it does.
- `window.open` is a side effect. The strategy carries the site and the address instead.
- The comparison template's split of the query into items and `switchToChat` are outside the modelled core.
- A stored session without a `messages` field (script.js:280-282) cannot occur in the model: every session has a message sequence.
- Router.StripFillers: its own contract states only that the result is no longer than the input. Its result is characterised by the cut lemmas CutOf, CutSpells, CutUnique and StripCut. The result can still hold a filler word made from pieces on both sides of a removed one, as with the global replacement it models.
- Store.MakeTitle: counts characters, while `length` and `substring` count UTF-16 code units. The two differ only on characters outside the Basic Multilingual Plane.
- Renderer.BoldFirstLineNotList: is proved for the message's first line only. The property holds for later lines as well, but it is not proved there: the bold and link scans run over the whole text, so the proof would have to follow the scan across every earlier line.
- Scenario commands ("learn javascript", "explain machine learning", "open github", "digital logic pdf") are stated as lemmas over every command containing the deciding phrase, plus a few concrete instances.

Where the code and its prose description disagree, the model follows the code:

- The comparison rule fires only on "difference" or "vs". "between" only splits the compared items.
- Rule 4 also fires on "best <key>", not only on "… course", "… tutorial" and "learn …".
- The video category test is `includes(category)` on both the command and the cleaned request. There is no reverse containment test.
- Rule 8's reverse test looks for the command, with its whitespace removed, inside the key.
- Session ids are `chat-<ms>` and can collide. A colliding session overwrites the earlier one and keeps its place in the order.
- Ordered lists are closed with `</ul>`. An indented `# x` is not a heading. A heading line passes through unwrapped.
