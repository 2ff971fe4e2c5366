/** The command classifier: an ordered, short-circuiting cascade of rules that
    maps one typed command to exactly one response strategy. Every rule tests
    plain substrings or prefixes of the whole command, and every table is
    scanned in declaration order, so the first rule that fires, and within it
    the first table entry that matches, decides the answer. */
module Router {
  import opened Wrappers
  import opened Text

  datatype Subject = Cse | Ece | Mech | Civil | It

  datatype Video = Video(id: string, title: string)

  datatype Topic = Topic(category: string, description: string)

  /** What the assistant does with a command. */
  datatype Strategy =
    | SubjectPdf(subject: Subject)          // open a syllabus PDF
    | BookSearch                            // web search for a free PDF of a book
    | OpenSite(site: string, url: string)   // open a web site
    | CuratedVideo(key: string, video: Video)
    | VideoCategory(category: string)       // play one video of a category
    | VideoFallback(query: string)          // play an entertainment video
    | Lookup(query: string)                 // encyclopedia summary found
    | CuratedTopic(key: string)             // prewritten topic article
    | GeneralTopic(key: string, topic: Topic)
    | HowTo
    | Best
    | Comparison
    | Default

  /** Position of a strategy in the cascade: the rule that produces it. */
  function RuleOf(s: Strategy): nat {
    match s
    case SubjectPdf(_) => 1
    case BookSearch => 2
    case OpenSite(_, _) => 3
    case CuratedVideo(_, _) => 4
    case VideoCategory(_) => 5
    case VideoFallback(_) => 5
    case Lookup(_) => 6
    case CuratedTopic(_) => 7
    case GeneralTopic(_, _) => 8
    case HowTo => 9
    case Best => 10
    case Comparison => 11
    case Default => 12
  }

  // ---------------------------------------------------------------------
  // Tables, in declaration order

  const PdfLinks := map[
    Cse := "https://jntuh.ac.in/uploads/academic_regulations/R22-B.Tech-Syllabus-CSE.pdf",
    Ece := "https://jntuh.ac.in/uploads/academic_regulations/R22-B.Tech-Syllabus-ECE.pdf",
    Mech := "https://jntuh.ac.in/uploads/academic_regulations/R22-B.Tech-Syllabus-MECH.pdf",
    Civil := "https://jntuh.ac.in/uploads/academic_regulations/R22-B.Tech-Syllabus-CIVIL.pdf",
    It := "https://jntuh.ac.in/uploads/academic_regulations/R22-B.Tech-Syllabus-IT.pdf"
  ]

  /** The course library: topic names in declaration order, and the video
      each one plays (same positions). */
  const CourseKeys := ["python", "java", "c", "c++", "javascript", "sql", "html", "css"]

  const CourseVideos := [
    Video("rfscVS0vtbw", "Python Full Course for Beginners"),
    Video("eIrMbAQSU34", "Java Full Course for Beginners"),
    Video("KJgsSFOSQv0", "C Programming Full Course for Beginners"),
    Video("8jLOx1hD3_o", "C++ Full Course for Beginners"),
    Video("W6NZfCO5SIk", "JavaScript Full Course for Beginners"),
    Video("HXV3zeQKqGY", "SQL Full Course for Beginners"),
    Video("kUMe1FH4CHE", "HTML Full Course for Beginners"),
    Video("1PnVor36_40", "CSS Full Course for Beginners")
  ]

  /** The video search library: category names in declaration order, and the
      list each one draws from (same positions). */
  const CategoryNames := ["comedy", "music", "funny", "entertainment", "movie", "dance", "sports", "gaming"]

  const CategoryVideos := [
    [Video("9bZkp7q19f0", "Best Comedy Compilation"), Video("hFZFjoX2cGg", "Funny Moments Collection"),
     Video("y6120QOlsfU", "Comedy Gold")],
    [Video("kJQP7kiw5Fk", "Best Music Mix"), Video("fJ9rUzIMcZQ", "Top Hits Playlist"),
     Video("ktvTqknDobU", "Music Collection")],
    [Video("9bZkp7q19f0", "Hilarious Compilation"), Video("hFZFjoX2cGg", "Funny Videos"),
     Video("y6120QOlsfU", "Comedy Central")],
    [Video("kJQP7kiw5Fk", "Entertainment Tonight"), Video("fJ9rUzIMcZQ", "Fun Videos"),
     Video("ktvTqknDobU", "Best Entertainment")],
    [Video("9bZkp7q19f0", "Movie Trailers"), Video("hFZFjoX2cGg", "Film Highlights"),
     Video("y6120QOlsfU", "Cinema Collection")],
    [Video("kJQP7kiw5Fk", "Best Dance Moves"), Video("fJ9rUzIMcZQ", "Dance Compilation"),
     Video("ktvTqknDobU", "Dancing Videos")],
    [Video("9bZkp7q19f0", "Sports Highlights"), Video("hFZFjoX2cGg", "Best Sports Moments"),
     Video("y6120QOlsfU", "Athletic Compilation")],
    [Video("kJQP7kiw5Fk", "Gaming Highlights"), Video("fJ9rUzIMcZQ", "Best Gaming Moments"),
     Video("ktvTqknDobU", "Game Reviews")]
  ]

  /** Positions inside the key tables. */
  type CourseAt = i: nat | i < |CourseKeys|
  type CategoryAt = i: nat | i < |CategoryNames|

  /** Index of the entertainment list, played when no category matches. */
  const EntertainmentIndex := 3

  /** Words removed from a video request before the category scan. */
  const Fillers := ["video", "watch", "play", "show", "me", "best", "good", "funny"]

  /** Leading phrases stripped from a question before the lookup. */
  const QuestionPrefixes := ["what is", "who is", "what are", "who are", "where is", "when is", "why is",
                             "how is", "tell me about", "explain", "define", "describe"]

  const CuratedTopics := ["ai", "machine learning", "python", "javascript"]

  /** The general topic table: keys in declaration order, and the category
      and description each one answers with (same positions). */
  const GeneralKeys := [
    "html", "css", "react", "vue", "angular", "node", "express", "mongodb", "mysql", "postgresql",
    "git", "github", "docker", "kubernetes", "aws", "azure", "blockchain", "cryptocurrency",
    "bitcoin", "ethereum", "cybersecurity", "data science", "big data", "cloud computing", "iot",
    "5g", "quantum computing", "virtual reality", "augmented reality"
  ]

  const GeneralInfo := [
    Topic("Web Technology", "markup language for web pages"),
    Topic("Web Technology", "styling language for web design"),
    Topic("Frontend Framework", "JavaScript library for user interfaces"),
    Topic("Frontend Framework", "progressive JavaScript framework"),
    Topic("Frontend Framework", "full-featured web framework"),
    Topic("Backend Technology", "JavaScript runtime for servers"),
    Topic("Backend Framework", "minimal web framework for Node.js"),
    Topic("Database", "NoSQL document database"),
    Topic("Database", "relational database management system"),
    Topic("Database", "advanced relational database"),
    Topic("Version Control", "distributed version control system"),
    Topic("Platform", "code hosting and collaboration platform"),
    Topic("DevOps Tool", "containerization platform"),
    Topic("DevOps Tool", "container orchestration system"),
    Topic("Cloud Platform", "Amazon Web Services cloud computing"),
    Topic("Cloud Platform", "Microsoft cloud computing platform"),
    Topic("Technology", "distributed ledger technology"),
    Topic("Digital Currency", "digital or virtual currency"),
    Topic("Cryptocurrency", "first and largest cryptocurrency"),
    Topic("Blockchain Platform", "decentralized computing platform"),
    Topic("Security", "protection of digital systems"),
    Topic("Field", "extracting insights from data"),
    Topic("Technology", "large and complex datasets"),
    Topic("Technology", "on-demand computing services"),
    Topic("Technology", "Internet of Things connected devices"),
    Topic("Network Technology", "fifth generation mobile network"),
    Topic("Computing", "quantum mechanical computing"),
    Topic("Technology", "immersive digital environments"),
    Topic("Technology", "enhanced real-world experiences")
  ]

  type CuratedAt = i: nat | i < |CuratedTopics|
  type GeneralAt = i: nat | i < |GeneralKeys|

  // ---------------------------------------------------------------------
  // Declaration-order scan

  /** The first position whose element satisfies `p`: a `for ... in` loop
      over a table that returns on the first hit. */
  function FirstIndex<T>(xs: seq<T>, p: T -> bool): (r: Option<nat>)
    ensures r.Some? ==> r.value < |xs|
  {
    if xs == [] then None
    else if p(xs[0]) then Some(0)
    else match FirstIndex(xs[1..], p)
      case Some(i) => Some(i + 1)
      case None => None
  }

  /** The scan finds the earliest element satisfying `p`, and finds nothing
      exactly when no element does. */
  lemma {:induction false} FirstIndexSpec<T>(xs: seq<T>, p: T -> bool)
    ensures FirstIndex(xs, p).Some? ==> p(xs[FirstIndex(xs, p).value])
    ensures FirstIndex(xs, p).Some? ==> forall j :: 0 <= j < FirstIndex(xs, p).value ==> !p(xs[j])
    ensures FirstIndex(xs, p).None? <==> forall j :: 0 <= j < |xs| ==> !p(xs[j])
  {
    if xs != [] && !p(xs[0]) {
      FirstIndexSpec(xs[1..], p);
      assert forall j :: 1 <= j < |xs| ==> xs[j] == xs[1..][j - 1];
    }
  }

  // ---------------------------------------------------------------------
  // Rule 1: syllabus PDFs

  predicate PdfIntent(cmd: string) {
    Contains(cmd, "pdf") || Contains(cmd, "syllabus")
  }

  /** The aliases by which a command names a subject. */
  predicate Mentions(cmd: string, s: Subject) {
    match s
    case Cse => Contains(cmd, "cse") || Contains(cmd, "computer science")
    case Ece => Contains(cmd, "ece") || Contains(cmd, "electronics")
    case Mech => Contains(cmd, "mech") || Contains(cmd, "mechanical")
    case Civil => Contains(cmd, "civil")
    case It => Contains(cmd, "it") || Contains(cmd, "information technology")
  }

  /** The order in which the subject tests are written. */
  function Rank(s: Subject): nat {
    match s
    case Cse => 0
    case Ece => 1
    case Mech => 2
    case Civil => 3
    case It => 4
  }

  /** The subject the chain of alias tests settles on. */
  function SubjectOf(cmd: string): (r: Option<Subject>)
    ensures r.Some? ==> Mentions(cmd, r.value)
    ensures r.Some? ==> forall t :: Rank(t) < Rank(r.value) ==> !Mentions(cmd, t)
    ensures r.None? ==> forall t :: !Mentions(cmd, t)
  {
    if Contains(cmd, "cse") || Contains(cmd, "computer science") then Some(Cse)
    else if Contains(cmd, "ece") || Contains(cmd, "electronics") then Some(Ece)
    else if Contains(cmd, "mech") || Contains(cmd, "mechanical") then Some(Mech)
    else if Contains(cmd, "civil") then Some(Civil)
    else if Contains(cmd, "it") || Contains(cmd, "information technology") then Some(It)
    else None
  }

  // ---------------------------------------------------------------------
  // Rule 3: open a site

  /** What follows the leading "open ", trimmed. */
  function OpenTarget(cmd: string): (site: string)
    requires StartsWith(cmd, "open ")
    ensures Trimmed(site)
    ensures site == Trim(cmd[5..])
    ensures PaddedAfter(cmd, site, 5)
    ensures Trimmed(cmd) ==> site != [] && site[|site| - 1] == cmd[|cmd| - 1]
  {
    var rest := cmd[5..];
    var site := Trim(rest);
    TrimWithin(cmd, 5);
    OpenTargetLast(cmd);
    site
  }

  /** On a trimmed command the site is not empty and ends where the command
      ends. */
  lemma OpenTargetLast(cmd: string)
    requires StartsWith(cmd, "open ")
    ensures Trimmed(cmd) ==> Trim(cmd[5..]) != [] && Trim(cmd[5..])[|Trim(cmd[5..])| - 1] == cmd[|cmd| - 1]
  {
    if Trimmed(cmd) {
      assert |cmd| > 5;
      TrimKeepsLast(cmd[5..]);
    }
  }

  /** The address opened for a site name: the name itself when it mentions
      "http", otherwise a ".com" address built from it with its blanks
      removed. */
  function SiteUrl(site: string): (url: string)
    ensures Contains(site, "http") ==> url == site
    ensures !Contains(site, "http") ==>
      && |url| >= 12
      && StartsWith(url, "https://")
      && url[|url| - 4..] == ".com"
      && url[8..|url| - 4] == Filter(site, c => c != ' ')
      && ' ' !in url[8..|url| - 4]
  {
    if Contains(site, "http") then site
    else "https://" + Filter(site, c => c != ' ') + ".com"
  }

  // ---------------------------------------------------------------------
  // Rule 4: curated course videos

  /** One of the four phrasings that ask for the course video of `key`. */
  predicate AsksForCourse(cmd: string, key: string) {
    Contains(cmd, "best " + key) || Contains(cmd, key + " course")
    || Contains(cmd, key + " tutorial") || Contains(cmd, "learn " + key)
  }

  /** Some library entry is asked for. */
  predicate AnyCourse(cmd: string) {
    exists j :: 0 <= j < |CourseKeys| && AsksForCourse(cmd, CourseKeys[j])
  }

  function CourseTest(cmd: string): string -> bool {
    key => AsksForCourse(cmd, key)
  }

  /** The library scan: the first entry the command asks for. */
  function CourseIndex(cmd: string): Option<CourseAt> {
    match FirstIndex(CourseKeys, CourseTest(cmd))
    case Some(i) => Some(i)
    case None => None
  }

  lemma CourseIndexSpec(cmd: string)
    ensures CourseIndex(cmd).Some? ==> AsksForCourse(cmd, CourseKeys[CourseIndex(cmd).value])
    ensures CourseIndex(cmd).Some? ==> forall j :: 0 <= j < CourseIndex(cmd).value ==> !AsksForCourse(cmd, CourseKeys[j])
    ensures CourseIndex(cmd).None? <==> !AnyCourse(cmd)
  {
    FirstIndexSpec(CourseKeys, CourseTest(cmd));
  }

  // ---------------------------------------------------------------------
  // Rule 5: video requests

  predicate VideoIntent(cmd: string) {
    Contains(cmd, "video") || Contains(cmd, "watch") || Contains(cmd, "play")
  }

  /** The filler word at the head of `s`, tried in table order. */
  function FillerAt(s: string): (r: Option<nat>)
    ensures r.Some? ==> r.value < |Fillers| && 0 < |Fillers[r.value]| && StartsWith(s, Fillers[r.value])
  {
    FirstIndexSpec(Fillers, FillerTest(s));
    FirstIndex(Fillers, FillerTest(s))
  }

  function FillerTest(s: string): string -> bool {
    f => 0 < |f| && StartsWith(s, f)
  }

  /** The global removal of filler words: a left-to-right scan that drops a
      filler wherever one starts and keeps every other character. */
  function StripFillers(s: string): (r: string)
    ensures |r| <= |s|
    decreases |s|
  {
    if s == [] then []
    else match FillerAt(s)
      case Some(i) => StripFillers(s[|Fillers[i]|..])
      case None => [s[0]] + StripFillers(s[1..])
  }

  /** No filler starts at any position of `s`. */
  predicate FillerFree(s: string)
    decreases |s|
  {
    s == [] || (FillerAt(s).None? && FillerFree(s[1..]))
  }

  /** Text in which no filler starts anywhere is kept whole. */
  lemma {:induction false} StripNoFiller(s: string)
    requires FillerFree(s)
    ensures StripFillers(s) == s
    decreases |s|
  {
    if s != [] {
      StripNoFiller(s[1..]);
      StripKeep(s);
      Rebuild(s, StripFillers(s), StripFillers(s[1..]));
    }
  }

  /** Where no filler starts, the scan keeps one character and moves on. */
  lemma StripKeep(s: string)
    requires s != [] && FillerAt(s).None?
    ensures StripFillers(s) == [s[0]] + StripFillers(s[1..])
  {
  }

  /** A sequence rebuilt from its head and its tail is itself. */
  lemma Rebuild(s: string, r: string, t: string)
    requires s != [] && r == [s[0]] + t && t == s[1..]
    ensures r == s
  {
    assert [s[0]] + s[1..] == s;
  }

  /** A filler at the head is dropped whole and the scan resumes after it. */
  lemma StripHeadFiller(s: string, i: nat)
    requires FillerAt(s) == Some(i)
    ensures StripFillers(s) == StripFillers(s[|Fillers[i]|..])
  {
  }

  /** One piece of a cut of the text: a filler the removal drops, or a
      character it keeps. */
  datatype Piece = Dropped(filler: nat) | Kept(c: char)

  /** The text a piece stands for. */
  function Covered(p: Piece): string {
    match p
    case Dropped(i) => if i < |Fillers| then Fillers[i] else []
    case Kept(c) => [c]
  }

  /** The text the pieces stand for, in order. */
  function Spelled(ps: seq<Piece>): string {
    if ps == [] then [] else Covered(ps[0]) + Spelled(ps[1..])
  }

  /** The kept characters, in order. */
  function KeptChars(ps: seq<Piece>): string {
    if ps == [] then [] else (if ps[0].Kept? then [ps[0].c] else []) + KeptChars(ps[1..])
  }

  /** `ps` cuts `s` the way a global replacement of the filler alternation
      does, left to right: a dropped piece is the first filler, in table
      order, that starts where it stands, and a kept character stands where
      no filler starts. */
  predicate Cut(s: string, ps: seq<Piece>)
    decreases |ps|
  {
    if ps == [] then s == []
    else match ps[0]
      case Dropped(i) => FillerAt(s) == Some(i) && Cut(s[|Fillers[i]|..], ps[1..])
      case Kept(c) => s != [] && s[0] == c && FillerAt(s).None? && Cut(s[1..], ps[1..])
  }

  /** Every text has its cut. */
  function CutOf(s: string): (ps: seq<Piece>)
    ensures Cut(s, ps)
    decreases |s|
  {
    if s == [] then []
    else match FillerAt(s)
      case Some(i) => [Dropped(i)] + CutOf(s[|Fillers[i]|..])
      case None => [Kept(s[0])] + CutOf(s[1..])
  }

  /** The pieces of a cut cover the text exactly: the dropped fillers and
      the kept characters, put back in order, give the text back. */
  lemma {:induction false} CutSpells(s: string, ps: seq<Piece>)
    requires Cut(s, ps)
    ensures Spelled(ps) == s
    decreases |ps|
  {
    if ps != [] {
      var n := CutStep(s, ps);
      CutSpells(s[n..], ps[1..]);
      SpelledStep(s, ps, n);
    }
  }

  /** The first piece of a cut covers the head of the text, and the rest
      of the cut cuts the rest of the text. */
  lemma CutStep(s: string, ps: seq<Piece>) returns (n: nat)
    requires Cut(s, ps) && ps != []
    ensures n == |Covered(ps[0])| && n <= |s| && s[..n] == Covered(ps[0])
    ensures Cut(s[n..], ps[1..])
  {
    match ps[0]
    case Dropped(i) =>
      n := |Fillers[i]|;
    case Kept(c) =>
      n := 1;
  }

  /** A head and the spelled rest give the spelled whole. */
  lemma SpelledStep(s: string, ps: seq<Piece>, n: nat)
    requires ps != [] && n <= |s| && s[..n] == Covered(ps[0]) && Spelled(ps[1..]) == s[n..]
    ensures Spelled(ps) == s
  {
    assert s == s[..n] + s[n..];
  }

  /** The cut is unique. */
  lemma {:induction false} CutUnique(s: string, ps: seq<Piece>, qs: seq<Piece>)
    requires Cut(s, ps) && Cut(s, qs)
    ensures ps == qs
    decreases |ps|
  {
    if ps == [] {
      assert qs == [] by {
        if qs != [] {
          var m := CutStep(s, qs);
        }
      }
    } else {
      assert qs != [];
      SameHead(s, ps, qs);
      var n := CutStep(s, ps);
      CutUnique(s[n..], ps[1..], qs[1..]);
      assert ps == [ps[0]] + ps[1..] && qs == [qs[0]] + qs[1..];
    }
  }

  /** Two cuts of a text begin with the same piece. */
  lemma SameHead(s: string, ps: seq<Piece>, qs: seq<Piece>)
    requires Cut(s, ps) && Cut(s, qs) && ps != [] && qs != []
    ensures ps[0] == qs[0]
  {
  }

  /** The removal keeps exactly the kept characters of the cut, in order. */
  lemma {:induction false} StripCut(s: string, ps: seq<Piece>)
    requires Cut(s, ps)
    ensures StripFillers(s) == KeptChars(ps)
    decreases |ps|
  {
    if ps != [] {
      match ps[0]
      case Dropped(i) =>
        StripCut(s[|Fillers[i]|..], ps[1..]);
      case Kept(c) =>
        StripCut(s[1..], ps[1..]);
        StripKeep(s);
    }
  }

  /** The cleaned request the category scan also looks at. */
  function CleanQuery(cmd: string): string {
    Trim(StripFillers(cmd))
  }

  predicate CategoryMatch(cmd: string, category: string) {
    Contains(cmd, category) || Contains(CleanQuery(cmd), category)
  }

  function CategoryTest(cmd: string): string -> bool {
    name => CategoryMatch(cmd, name)
  }

  /** The category scan. */
  function CategoryIndex(cmd: string): Option<CategoryAt> {
    match FirstIndex(CategoryNames, CategoryTest(cmd))
    case Some(i) => Some(i)
    case None => None
  }

  lemma CategoryIndexSpec(cmd: string)
    ensures CategoryIndex(cmd).Some? ==> CategoryMatch(cmd, CategoryNames[CategoryIndex(cmd).value])
    ensures CategoryIndex(cmd).Some? ==> forall j :: 0 <= j < CategoryIndex(cmd).value ==> !CategoryMatch(cmd, CategoryNames[j])
    ensures CategoryIndex(cmd).None? <==> forall j :: 0 <= j < |CategoryNames| ==> !CategoryMatch(cmd, CategoryNames[j])
  {
    FirstIndexSpec(CategoryNames, CategoryTest(cmd));
  }

  /** The videos a video strategy draws its random pick from: the list of
      the named category, or the entertainment list for the fallback. */
  function Playlist(s: Strategy): (videos: seq<Video>)
    requires s.VideoCategory? || s.VideoFallback?
    ensures s.VideoFallback? ==> videos == CategoryVideos[EntertainmentIndex]
    ensures s.VideoCategory? ==> forall j :: 0 <= j < |CategoryNames| && CategoryNames[j] == s.category ==>
      videos == CategoryVideos[j]
  {
    if s.VideoFallback? then CategoryVideos[EntertainmentIndex]
    else
      var named := (name: string) => name == s.category;
      FirstIndexSpec(CategoryNames, named);
      CategoryNamesDistinct();
      match FirstIndex(CategoryNames, named)
      case Some(i) => CategoryVideos[i]
      case None => []
  }

  /** No category keyword is listed twice. */
  lemma CategoryNamesDistinct()
    ensures forall i, j :: 0 <= i < j < |CategoryNames| ==> CategoryNames[i] != CategoryNames[j]
  {
  }

  // ---------------------------------------------------------------------
  // Rule 6: questions

  /** The command starts with one of the question words. */
  predicate IsQuestion(cmd: string) {
    StartsWith(cmd, "what") || StartsWith(cmd, "who") || StartsWith(cmd, "where") || StartsWith(cmd, "when")
    || StartsWith(cmd, "why") || StartsWith(cmd, "how") || StartsWith(cmd, "tell") || StartsWith(cmd, "explain")
    || StartsWith(cmd, "define") || StartsWith(cmd, "describe")
  }

  /** `p` stands at the head of `cmd` followed by at least one blank. */
  predicate LeadsWith(cmd: string, p: string) {
    StartsWith(cmd, p) && |p| < |cmd| && IsSpace(cmd[|p|])
  }

  function PrefixTest(cmd: string): string -> bool {
    p => LeadsWith(cmd, p)
  }

  /** The first leading phrase, in table order, followed by a blank. */
  function PrefixIndex(cmd: string): (r: Option<nat>)
    ensures r.Some? ==> r.value < |QuestionPrefixes| && LeadsWith(cmd, QuestionPrefixes[r.value])
    ensures r.Some? ==> forall j :: 0 <= j < r.value ==> !LeadsWith(cmd, QuestionPrefixes[j])
    ensures r.None? <==> forall j :: 0 <= j < |QuestionPrefixes| ==> !LeadsWith(cmd, QuestionPrefixes[j])
  {
    FirstIndexSpec(QuestionPrefixes, PrefixTest(cmd));
    FirstIndex(QuestionPrefixes, PrefixTest(cmd))
  }

  /** The question with its leading phrase and the blanks after it removed:
      the first phrase, in table order, that is followed by a blank. */
  function StripQuestion(cmd: string): (q: string)
    ensures Trimmed(q)
    ensures PrefixIndex(cmd).None? ==> q == Trim(cmd)
    ensures PrefixIndex(cmd).Some? ==> q == Trim(cmd[|QuestionPrefixes[PrefixIndex(cmd).value]|..])
    ensures PrefixIndex(cmd).Some? && Trimmed(cmd) ==> q != []
  {
    match PrefixIndex(cmd)
    case Some(i) =>
      var rest := cmd[|QuestionPrefixes[i]|..];
      assert Trimmed(cmd) ==> !IsSpace(rest[|rest| - 1]);
      Trim(rest)
    case None => Trim(cmd)
  }

  /** A trimmed question always leaves a non-empty query: the strip needs a
      blank after the phrase, and a trimmed command does not end in one. */
  lemma QuestionQueryNonEmpty(cmd: string)
    requires Trimmed(cmd) && IsQuestion(cmd)
    ensures StripQuestion(cmd) != []
  {
    if PrefixIndex(cmd).None? {
      assert cmd != [] by {
        QuestionNotEmpty(cmd);
      }
      TrimTrimmed(cmd);
    }
  }

  lemma QuestionNotEmpty(cmd: string)
    requires IsQuestion(cmd)
    ensures |cmd| >= 3
  {
  }

  // ---------------------------------------------------------------------
  // Rules 7 and 8: topic tables

  /** Rule 7 matches in both directions on the command as typed. */
  predicate CuratedMatch(cmd: string, key: string) {
    Contains(cmd, key) || Contains(key, cmd)
  }

  predicate AnyCurated(cmd: string) {
    exists j :: 0 <= j < |CuratedTopics| && CuratedMatch(cmd, CuratedTopics[j])
  }

  function CuratedTest(cmd: string): string -> bool {
    key => CuratedMatch(cmd, key)
  }

  /** The curated topic scan. */
  function CuratedIndex(cmd: string): Option<CuratedAt> {
    match FirstIndex(CuratedTopics, CuratedTest(cmd))
    case Some(i) => Some(i)
    case None => None
  }

  lemma CuratedIndexSpec(cmd: string)
    ensures CuratedIndex(cmd).Some? ==> CuratedMatch(cmd, CuratedTopics[CuratedIndex(cmd).value])
    ensures CuratedIndex(cmd).Some? ==> forall j :: 0 <= j < CuratedIndex(cmd).value ==> !CuratedMatch(cmd, CuratedTopics[j])
    ensures CuratedIndex(cmd).None? <==> !AnyCurated(cmd)
  {
    FirstIndexSpec(CuratedTopics, CuratedTest(cmd));
  }

  /** Rule 8 looks for the key in the command, or for the command with all
      its blanks removed in the key. */
  predicate GeneralMatch(cmd: string, key: string) {
    Contains(cmd, key) || Contains(key, Filter(cmd, c => !IsSpace(c)))
  }

  predicate AnyGeneral(cmd: string) {
    exists j :: 0 <= j < |GeneralKeys| && GeneralMatch(cmd, GeneralKeys[j])
  }

  function GeneralTest(cmd: string): string -> bool {
    key => GeneralMatch(cmd, key)
  }

  /** The general topic scan. */
  function GeneralIndex(cmd: string): Option<GeneralAt> {
    match FirstIndex(GeneralKeys, GeneralTest(cmd))
    case Some(i) => Some(i)
    case None => None
  }

  lemma GeneralIndexSpec(cmd: string)
    ensures GeneralIndex(cmd).Some? ==> GeneralMatch(cmd, GeneralKeys[GeneralIndex(cmd).value])
    ensures GeneralIndex(cmd).Some? ==> forall j :: 0 <= j < GeneralIndex(cmd).value ==> !GeneralMatch(cmd, GeneralKeys[j])
    ensures GeneralIndex(cmd).None? <==> !AnyGeneral(cmd)
  {
    FirstIndexSpec(GeneralKeys, GeneralTest(cmd));
  }

  // ---------------------------------------------------------------------
  // The cascade

  /** Everything the rules test, read off one command. The handler's tests
      have no side effects, so evaluating them all before deciding gives the
      same answer as evaluating them lazily in order. `lookupOk` is the
      outcome of the encyclopedia lookup rule 6 starts; it only matters when
      that rule is reached. */
  datatype Observation = Observation(
    pdfIntent: bool,             // "pdf" or "syllabus"
    subject: Option<Subject>,    // the first subject alias test that succeeds
    bookOrPdf: bool,             // the book search pattern matches
    site: Option<string>,        // the site after a leading "open "
    course: Option<CourseAt>,    // the first library entry asked for
    videoIntent: bool,           // "video", "watch" or "play"
    category: Option<CategoryAt>, // the first category named
    cleanQuery: string,          // the request with filler words removed
    question: Option<string>,    // the query left by a question
    lookupOk: bool,
    curated: Option<CuratedAt>,  // the first curated topic that matches
    general: Option<GeneralAt>,  // the first general topic that matches
    howTo: bool,                 // "how to" or "tutorial"
    best: bool,                  // "best" or "top"
    comparison: bool)            // "difference" or "vs"

  function Observe(cmd: string, lookupOk: bool): (o: Observation)
  {
    Observation(
      PdfIntent(cmd), SubjectOf(cmd), Contains(cmd, "book") || Contains(cmd, "pdf"),
      if StartsWith(cmd, "open ") then Some(OpenTarget(cmd)) else None,
      CourseIndex(cmd), VideoIntent(cmd), CategoryIndex(cmd), CleanQuery(cmd),
      if IsQuestion(cmd) then Some(StripQuestion(cmd)) else None,
      lookupOk, CuratedIndex(cmd), GeneralIndex(cmd),
      Contains(cmd, "how to") || Contains(cmd, "tutorial"),
      Contains(cmd, "best") || Contains(cmd, "top"),
      Contains(cmd, "difference") || Contains(cmd, "vs"))
  }

  /** The guard of the handler's `k`-th early return. */
  predicate Holds(k: nat, o: Observation) {
    if k == 1 then o.pdfIntent && o.subject.Some?
    else if k == 2 then o.bookOrPdf
    else if k == 3 then o.site.Some?
    else if k == 4 then o.course.Some?
    else if k == 5 then o.videoIntent
    else if k == 6 then o.question.Some? && o.question.value != [] && o.lookupOk
    else if k == 7 then o.curated.Some?
    else if k == 8 then o.general.Some?
    else if k == 9 then o.howTo
    else if k == 10 then o.best
    else if k == 11 then o.comparison
    else k == 12
  }

  /** The guards read on an observation taken as given; the lemmas below
      use it to avoid unfolding how an observation is computed. */
  lemma HoldsFields(o: Observation)
    ensures Holds(1, o) <==> o.pdfIntent && o.subject.Some?
    ensures Holds(2, o) <==> o.bookOrPdf
    ensures Holds(3, o) <==> o.site.Some?
    ensures Holds(4, o) <==> o.course.Some?
    ensures Holds(5, o) <==> o.videoIntent
    ensures Holds(6, o) <==> o.question.Some? && o.question.value != [] && o.lookupOk
    ensures Holds(7, o) <==> o.curated.Some?
    ensures Holds(8, o) <==> o.general.Some?
  {
  }

  /** The answer of the first rule whose guard holds. */
  function Decide(o: Observation): (r: Strategy)
    ensures 1 <= RuleOf(r) <= 12 && Holds(RuleOf(r), o)
    ensures forall k :: 1 <= k < RuleOf(r) ==> !Holds(k, o)
  {
    HoldsFields(o);
    if o.pdfIntent && o.subject.Some? then SubjectPdf(o.subject.value)
    else if o.bookOrPdf then BookSearch
    else if o.site.Some? then OpenSite(o.site.value, SiteUrl(o.site.value))
    else if o.course.Some? then CuratedVideo(CourseKeys[o.course.value], CourseVideos[o.course.value])
    else if o.videoIntent then
      match o.category
      case Some(i) => VideoCategory(CategoryNames[i])
      case None => VideoFallback(if o.cleanQuery == [] then "entertainment" else o.cleanQuery)
    else if o.question.Some? && o.question.value != [] && o.lookupOk then Lookup(o.question.value)
    else if o.curated.Some? then CuratedTopic(CuratedTopics[o.curated.value])
    else if o.general.Some? then GeneralTopic(GeneralKeys[o.general.value], GeneralInfo[o.general.value])
    else if o.howTo then HowTo
    else if o.best then Best
    else if o.comparison then Comparison
    else Default
  }

  /** Whether rule `k` would fire on its own, ignoring every other rule. */
  predicate Fires(k: nat, cmd: string, lookupOk: bool) {
    Holds(k, Observe(cmd, lookupOk))
  }

  /** The rules on a trimmed, lower-cased command. First match wins: the
      rule that produced the answer fires, and no rule before it does. */
  function Cascade(cmd: string, lookupOk: bool): (r: Strategy)
    requires Trimmed(cmd)
    ensures 1 <= RuleOf(r) <= 12 && Fires(RuleOf(r), cmd, lookupOk)
    ensures forall k :: 1 <= k < RuleOf(r) ==> !Fires(k, cmd, lookupOk)
  {
    Decide(Observe(cmd, lookupOk))
  }

  /** The command handler: the typed command, already lower-cased, is trimmed
      and run through the cascade. */
  function Classify(command: string, lookupOk: bool): (r: Strategy)
    ensures 1 <= RuleOf(r) <= 12 && Fires(RuleOf(r), Trim(command), lookupOk)
    ensures forall k :: 1 <= k < RuleOf(r) ==> !Fires(k, Trim(command), lookupOk)
  {
    Cascade(Trim(command), lookupOk)
  }

  // ---------------------------------------------------------------------
  // What the guards mean on the command

  /** Rule 1 fires exactly when a PDF is asked for and some subject alias
      is mentioned. */
  lemma PdfGuard(cmd: string, lookupOk: bool)
    ensures Fires(1, cmd, lookupOk) <==> PdfIntent(cmd) && exists s :: Mentions(cmd, s)
  {
    HoldsFields(Observe(cmd, lookupOk));
    if SubjectOf(cmd).Some? {
      assert Mentions(cmd, SubjectOf(cmd).value);
    }
  }

  /** Rule 4 fires exactly when some library entry is asked for. */
  lemma CourseGuard(cmd: string, lookupOk: bool)
    ensures Fires(4, cmd, lookupOk) <==> AnyCourse(cmd)
  {
    HoldsFields(Observe(cmd, lookupOk));
    CourseIndexSpec(cmd);
  }

  /** On a trimmed command rule 6 fires exactly for a question whose lookup
      succeeds: the emptiness test on the stripped query never fails. */
  lemma QuestionGuard(cmd: string, lookupOk: bool)
    requires Trimmed(cmd)
    ensures Fires(6, cmd, lookupOk) <==> IsQuestion(cmd) && lookupOk
  {
    HoldsFields(Observe(cmd, lookupOk));
    if IsQuestion(cmd) {
      QuestionQueryNonEmpty(cmd);
    }
  }

  /** Rule 7 fires exactly when some curated topic matches. */
  lemma CuratedGuard(cmd: string, lookupOk: bool)
    ensures Fires(7, cmd, lookupOk) <==> AnyCurated(cmd)
  {
    HoldsFields(Observe(cmd, lookupOk));
    CuratedIndexSpec(cmd);
  }

  /** Rule 8 fires exactly when some general topic matches. */
  lemma GeneralGuard(cmd: string, lookupOk: bool)
    ensures Fires(8, cmd, lookupOk) <==> AnyGeneral(cmd)
  {
    HoldsFields(Observe(cmd, lookupOk));
    GeneralIndexSpec(cmd);
  }
}
