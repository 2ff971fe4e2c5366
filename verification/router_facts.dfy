/** Consequences of the cascade's first-match-wins order and of its plain
    substring tests: what the encyclopedia lookup can change, which table
    entries are shadowed by earlier ones, and how a few typical commands are
    answered. */
module RouterFacts {
  import opened Wrappers
  import opened Text
  import opened Router

  /** The answer each rule gives, read on an observation taken as given. */
  lemma DecideAnswers(o: Observation)
    ensures Decide(o).SubjectPdf? ==> o.subject == Some(Decide(o).subject)
    ensures Decide(o).OpenSite? ==> o.site == Some(Decide(o).site) && Decide(o).url == SiteUrl(Decide(o).site)
    ensures Decide(o).CuratedVideo? ==>
      o.course.Some? && Decide(o).key == CourseKeys[o.course.value] && Decide(o).video == CourseVideos[o.course.value]
    ensures Decide(o).VideoCategory? ==> o.category.Some? && Decide(o).category == CategoryNames[o.category.value]
    ensures Decide(o).VideoFallback? ==>
      o.category.None? && Decide(o).query == (if o.cleanQuery == [] then "entertainment" else o.cleanQuery)
    ensures Decide(o).Lookup? ==> o.question == Some(Decide(o).query) && Decide(o).query != [] && o.lookupOk
    ensures Decide(o).CuratedTopic? ==> o.curated.Some? && Decide(o).key == CuratedTopics[o.curated.value]
    ensures Decide(o).GeneralTopic? ==>
      o.general.Some? && Decide(o).key == GeneralKeys[o.general.value] && Decide(o).topic == GeneralInfo[o.general.value]
  {
  }

  /** The rule that answers is the first one whose guard holds. */
  lemma DecideFirst(o: Observation, k: nat)
    requires 1 <= k <= 12 && Holds(k, o)
    requires forall j :: 1 <= j < k ==> !Holds(j, o)
    ensures RuleOf(Decide(o)) == k
  {
  }

  /** Only the question rule consults the lookup outcome. */
  lemma DecideLookup(o: Observation)
    ensures Decide(o.(lookupOk := true)) == Decide(o.(lookupOk := false))
      || (Decide(o.(lookupOk := true)).Lookup? && RuleOf(Decide(o.(lookupOk := false))) > 6)
  {
  }

  /** Only the lookup flag differs between the two outcomes. */
  lemma ObserveLookup(cmd: string)
    ensures Observe(cmd, true) == Observe(cmd, false).(lookupOk := true)
  {
  }

  /** The fields the lemmas below read, as the command determines them. */
  lemma ObserveFields(cmd: string, lookupOk: bool)
    ensures Observe(cmd, lookupOk).pdfIntent == PdfIntent(cmd)
    ensures Observe(cmd, lookupOk).subject == SubjectOf(cmd)
    ensures Observe(cmd, lookupOk).course == CourseIndex(cmd)
    ensures Observe(cmd, lookupOk).curated == CuratedIndex(cmd)
    ensures Observe(cmd, lookupOk).general == GeneralIndex(cmd)
    ensures Observe(cmd, lookupOk).category == CategoryIndex(cmd)
    ensures Observe(cmd, lookupOk).cleanQuery == CleanQuery(cmd)
  {
  }

  /** What the question field holds. */
  lemma ObserveQuestion(cmd: string, lookupOk: bool)
    ensures Observe(cmd, lookupOk).question.Some? ==>
      IsQuestion(cmd) && Trimmed(Observe(cmd, lookupOk).question.value)
  {
  }

  /** A failed lookup changes the answer only where the lookup would have
      answered: otherwise both outcomes give the same strategy, and a failed
      lookup falls through to a later rule. */
  lemma LookupOnlyDecidesQuestions(cmd: string)
    requires Trimmed(cmd)
    ensures Cascade(cmd, true) == Cascade(cmd, false)
      || (Cascade(cmd, true).Lookup? && RuleOf(Cascade(cmd, false)) > 6)
  {
    ObserveLookup(cmd);
    DecideLookup(Observe(cmd, false));
  }

  /** The query sent to the encyclopedia is never empty and never starts or
      ends with a blank. */
  lemma LookupQueryShape(cmd: string, lookupOk: bool)
    requires Trimmed(cmd)
    ensures Cascade(cmd, lookupOk).Lookup? ==>
      Cascade(cmd, lookupOk).query != [] && Trimmed(Cascade(cmd, lookupOk).query) && IsQuestion(cmd)
  {
    DecideAnswers(Observe(cmd, lookupOk));
    ObserveQuestion(cmd, lookupOk);
  }

  // ---------------------------------------------------------------------
  // Shadowed library entries

  /** "best javascript" and "learn javascript" also ask for "java", which
      comes first in the library. */
  lemma JavaShadowsJavaScript(cmd: string)
    requires Contains(cmd, "best javascript") || Contains(cmd, "learn javascript")
    ensures CourseIndex(cmd).Some? && CourseIndex(cmd).value <= 1
  {
    if Contains(cmd, "best javascript") {
      StartsWithContains("best javascript", "best java");
      ContainsTransitive(cmd, "best javascript", "best java");
      assert "best " + CourseKeys[1] == "best java";
    } else {
      StartsWithContains("learn javascript", "learn java");
      ContainsTransitive(cmd, "learn javascript", "learn java");
      assert "learn " + CourseKeys[1] == "learn java";
    }
    assert AsksForCourse(cmd, CourseKeys[1]);
    CourseIndexSpec(cmd);
  }

  /** "best c++", "learn c++", "best css" and "learn css" also ask for "c",
      which comes first in the library. */
  lemma CShadowsCppAndCss(cmd: string)
    requires Contains(cmd, "best c++") || Contains(cmd, "learn c++")
      || Contains(cmd, "best css") || Contains(cmd, "learn css")
    ensures CourseIndex(cmd).Some? && CourseIndex(cmd).value <= 2
  {
    var phrase :| phrase in ["best c++", "learn c++", "best css", "learn css"] && Contains(cmd, phrase);
    var short := if phrase[0] == 'b' then "best c" else "learn c";
    StartsWithContains(phrase, short);
    ContainsTransitive(cmd, phrase, short);
    assert "best " + CourseKeys[2] == "best c" && "learn " + CourseKeys[2] == "learn c";
    assert AsksForCourse(cmd, CourseKeys[2]);
    CourseIndexSpec(cmd);
  }

  /** Asked for as "best javascript" or "learn javascript", the assistant
      plays the Python or the Java course, never the JavaScript one, unless
      an earlier rule answers. */
  lemma JavaScriptCourseUnreachable(cmd: string, lookupOk: bool)
    requires Trimmed(cmd)
    requires Contains(cmd, "best javascript") || Contains(cmd, "learn javascript")
    ensures RuleOf(Cascade(cmd, lookupOk)) <= 4
    ensures Cascade(cmd, lookupOk).CuratedVideo? ==>
      Cascade(cmd, lookupOk).key == "python" || Cascade(cmd, lookupOk).key == "java"
  {
    var o := Observe(cmd, lookupOk);
    assert o.course.Some? && o.course.value <= 1 by {
      JavaShadowsJavaScript(cmd);
      ObserveFields(cmd, lookupOk);
    }
    EarlyCourse(o);
  }

  /** An observation that found one of the first two courses is answered by
      rule 4 at the latest, with the course video of "python" or "java". */
  lemma EarlyCourse(o: Observation)
    requires o.course.Some? && o.course.value <= 1
    ensures RuleOf(Decide(o)) <= 4
    ensures Decide(o).CuratedVideo? ==> Decide(o).key == "python" || Decide(o).key == "java"
  {
    HoldsFields(o);
    DecideAnswers(o);
  }

  // ---------------------------------------------------------------------
  // Loose topic matching

  /** The remaining fields, as the command determines them. */
  lemma ObserveGuards(cmd: string, lookupOk: bool)
    ensures Observe(cmd, lookupOk).bookOrPdf == (Contains(cmd, "book") || Contains(cmd, "pdf"))
    ensures Observe(cmd, lookupOk).site.Some? == StartsWith(cmd, "open ")
    ensures StartsWith(cmd, "open ") ==> Observe(cmd, lookupOk).site == Some(OpenTarget(cmd))
    ensures Observe(cmd, lookupOk).videoIntent == VideoIntent(cmd)
    ensures Observe(cmd, lookupOk).question.Some? == IsQuestion(cmd)
    ensures IsQuestion(cmd) ==> Observe(cmd, lookupOk).question == Some(StripQuestion(cmd))
  {
  }

  /** Any command that contains "ai" is answered by the first curated topic
      when rule 7 is reached. */
  lemma AiFirstCurated(cmd: string)
    requires Contains(cmd, "ai")
    ensures CuratedIndex(cmd) == Some(0)
  {
    CuratedIndexSpec(cmd);
    assert CuratedMatch(cmd, CuratedTopics[0]);
  }

  /** "explain" contains "ai", so a command starting with it that gets past
      rules 1 to 6 is always answered with the article on artificial
      intelligence, whatever it asks to explain. */
  lemma ExplainAnsweredAsAi(cmd: string, lookupOk: bool)
    requires Trimmed(cmd) && StartsWith(cmd, "explain")
    ensures RuleOf(Cascade(cmd, lookupOk)) <= 7
    ensures RuleOf(Cascade(cmd, lookupOk)) == 7 ==> Cascade(cmd, lookupOk) == CuratedTopic("ai")
  {
    StartsWithContains(cmd, "explain");
    assert OccursAt("explain", "ai", 4);
    ContainsIff("explain", "ai");
    ContainsTransitive(cmd, "explain", "ai");
    AiFirstCurated(cmd);
    ObserveFields(cmd, lookupOk);
    HoldsFields(Observe(cmd, lookupOk));
    DecideAnswers(Observe(cmd, lookupOk));
  }

  /** "github" contains "git", which comes earlier in the general table. */
  lemma GitShadowsGithub(cmd: string)
    requires Contains(cmd, "github")
    ensures GeneralIndex(cmd).Some? && GeneralKeys[GeneralIndex(cmd).value] != "github"
  {
    assert GeneralMatch(cmd, GeneralKeys[10]) by {
      StartsWithContains("github", "git");
      ContainsTransitive(cmd, "github", "git");
    }
    assert GeneralIndex(cmd).Some? && GeneralIndex(cmd).value <= 10 by {
      GeneralIndexSpec(cmd);
    }
    EarlyKeysNotGithub();
  }

  /** "github" is listed after "git". */
  lemma EarlyKeysNotGithub()
    ensures forall i :: 0 <= i <= 10 ==> GeneralKeys[i] != "github"
  {
  }

  /** So the GitHub entry is only ever reached the other way round: by a
      command that squeezes into "github" without containing it. */
  lemma GithubOnlyByReverse(cmd: string, lookupOk: bool)
    requires Trimmed(cmd)
    ensures Cascade(cmd, lookupOk).GeneralTopic? && Cascade(cmd, lookupOk).key == "github" ==>
      !Contains(cmd, "github")
  {
    if Contains(cmd, "github") {
      GitShadowsGithub(cmd);
      ObserveFields(cmd, lookupOk);
      DecideAnswers(Observe(cmd, lookupOk));
    }
  }

  // ---------------------------------------------------------------------
  // The empty command

  /** No library entry is asked for by the empty command. */
  lemma EmptyCourse()
    ensures CourseIndex("").None?
  {
    CourseIndexSpec("");
  }

  /** Every key contains the empty string, so the first curated topic
      matches the empty command. */
  lemma EmptyCurated()
    ensures CuratedIndex("") == Some(0)
  {
    CuratedIndexSpec("");
    assert CuratedMatch("", CuratedTopics[0]);
  }

  /** On the empty command every rule before 7 is silent and rule 7 finds
      the first curated topic. */
  lemma EmptyObservation(lookupOk: bool)
    ensures !Observe("", lookupOk).pdfIntent && !Observe("", lookupOk).bookOrPdf
    ensures Observe("", lookupOk).site.None? && Observe("", lookupOk).course.None?
    ensures !Observe("", lookupOk).videoIntent && Observe("", lookupOk).question.None?
    ensures Observe("", lookupOk).curated == Some(0)
  {
    assert !PdfIntent("") && !VideoIntent("") && !IsQuestion("");
    ObserveFields("", lookupOk);
    ObserveGuards("", lookupOk);
    EmptyCourse();
    EmptyCurated();
  }

  lemma EmptyCommandIsAi(lookupOk: bool)
    ensures Cascade("", lookupOk) == CuratedTopic("ai")
  {
    EmptyObservation(lookupOk);
    HoldsFields(Observe("", lookupOk));
    DecideAnswers(Observe("", lookupOk));
  }

  /** A blank command, whitespace only, trims to the empty command and is
      answered with the article on artificial intelligence. */
  lemma BlankCommandIsAi(command: string, lookupOk: bool)
    requires forall k :: 0 <= k < |command| ==> IsSpace(command[k])
    ensures Classify(command, lookupOk) == CuratedTopic("ai")
  {
    TrimBlank(command);
    EmptyCommandIsAi(lookupOk);
  }

  // ---------------------------------------------------------------------
  // Typical commands

  /** A command lacking the letters of "best ", " course", " tutorial" and
      "learn " asks for no library entry. */
  lemma NoCourse(cmd: string)
    requires 'b' !in cmd && 'c' !in cmd && 'u' !in cmd && 'l' !in cmd
    ensures CourseIndex(cmd).None?
  {
    forall key | key in CourseKeys
      ensures !AsksForCourse(cmd, key)
    {
      MissingChar(cmd, "best " + key, 'b');
      assert (key + " course")[|key| + 1] == 'c';
      MissingChar(cmd, key + " course", 'c');
      assert (key + " tutorial")[|key| + 2] == 'u';
      MissingChar(cmd, key + " tutorial", 'u');
      MissingChar(cmd, "learn " + key, 'l');
    }
    CourseIndexSpec(cmd);
  }

  /** Rule 1's answer: the syllabus of the first subject the alias chain
      settles on. */
  lemma PdfAnswer(cmd: string, lookupOk: bool)
    requires Trimmed(cmd) && PdfIntent(cmd) && SubjectOf(cmd).Some?
    ensures Cascade(cmd, lookupOk) == SubjectPdf(SubjectOf(cmd).value)
  {
    ObserveFields(cmd, lookupOk);
    HoldsFields(Observe(cmd, lookupOk));
    DecideAnswers(Observe(cmd, lookupOk));
  }

  /** "digital logic pdf" names no subject, yet "digital" contains "it":
      the command opens the IT syllabus. */
  lemma DigitalLogicIsIt(cmd: string)
    requires cmd == "digital logic pdf"
    ensures PdfIntent(cmd) && SubjectOf(cmd) == Some(It)
  {
    DigitalLogicAliases(cmd);
    assert OccursAt(cmd, "pdf", 14) && OccursAt(cmd, "it", 3);
    ContainsIff(cmd, "pdf");
    ContainsIff(cmd, "it");
  }

  lemma DigitalLogicAliases(cmd: string)
    requires cmd == "digital logic pdf"
    ensures forall t :: t != It ==> !Mentions(cmd, t)
  {
    DigitalLogicNotCseEce(cmd);
    DigitalLogicNotMechCivil(cmd);
  }

  lemma DigitalLogicNotCseEce(cmd: string)
    requires cmd == "digital logic pdf"
    ensures !Mentions(cmd, Cse) && !Mentions(cmd, Ece)
  {
    MissingChar(cmd, "cse", 's');
    MissingChar(cmd, "computer science", 'm');
    MissingChar(cmd, "ece", 'e');
    MissingChar(cmd, "electronics", 'e');
  }

  lemma DigitalLogicNotMechCivil(cmd: string)
    requires cmd == "digital logic pdf"
    ensures !Mentions(cmd, Mech) && !Mentions(cmd, Civil)
  {
    MissingChar(cmd, "mech", 'm');
    MissingChar(cmd, "mechanical", 'm');
    MissingChar(cmd, "civil", 'v');
  }

  /** Rule 3's answer on a command that asks for no PDF and no book. */
  lemma OpenAnswer(cmd: string, lookupOk: bool)
    requires Trimmed(cmd) && StartsWith(cmd, "open ")
    requires !PdfIntent(cmd) && !Contains(cmd, "book") && !Contains(cmd, "pdf")
    ensures Cascade(cmd, lookupOk) == OpenSite(OpenTarget(cmd), SiteUrl(OpenTarget(cmd)))
  {
    ObserveFields(cmd, lookupOk);
    ObserveGuards(cmd, lookupOk);
    HoldsFields(Observe(cmd, lookupOk));
    DecideAnswers(Observe(cmd, lookupOk));
  }

  /** Rule 4's answer: a command that gets past rules 1 to 3 and asks for a
      library entry plays the first entry it asks for. */
  lemma CourseAnswer(cmd: string, lookupOk: bool)
    requires Trimmed(cmd) && !StartsWith(cmd, "open ")
    requires !PdfIntent(cmd) && !Contains(cmd, "book") && !Contains(cmd, "pdf")
    requires CourseIndex(cmd).Some?
    ensures Cascade(cmd, lookupOk) == CuratedVideo(CourseKeys[CourseIndex(cmd).value], CourseVideos[CourseIndex(cmd).value])
  {
    ObserveFields(cmd, lookupOk);
    ObserveGuards(cmd, lookupOk);
    HoldsFields(Observe(cmd, lookupOk));
    DecideAnswers(Observe(cmd, lookupOk));
  }

  /** Rule 6's answer: a question that gets past rules 1 to 5 and whose
      lookup succeeds is answered with the summary for its stripped query. */
  lemma QuestionAnswer(cmd: string)
    requires Trimmed(cmd) && IsQuestion(cmd)
    requires !PdfIntent(cmd) && !Contains(cmd, "book") && !Contains(cmd, "pdf")
    requires !StartsWith(cmd, "open ") && CourseIndex(cmd).None? && !VideoIntent(cmd)
    ensures Cascade(cmd, true) == Lookup(StripQuestion(cmd))
  {
    QuestionQueryNonEmpty(cmd);
    ObserveFields(cmd, true);
    ObserveGuards(cmd, true);
    HoldsFields(Observe(cmd, true));
    DecideAnswers(Observe(cmd, true));
  }

  /** "what is ai" is led by the first phrase of the table, and the query
      left is "ai". */
  lemma WhatIsAiQuery()
    ensures PrefixIndex("what is ai") == Some(0)
    ensures StripQuestion("what is ai") == "ai"
  {
    assert "what is ai" == QuestionPrefixes[0] + [' '] + "ai";
    FirstPrefix(QuestionPrefixes[0], "ai");
  }

  /** A command made of the table's first phrase, a blank and a trimmed
      query is stripped down to that query. */
  lemma FirstPrefix(p: string, q: string)
    requires p == QuestionPrefixes[0] && Trimmed(q)
    ensures PrefixIndex(p + [' '] + q) == Some(0)
    ensures StripQuestion(p + [' '] + q) == q
  {
    var cmd := p + [' '] + q;
    assert cmd[..|p|] == p && cmd[|p|] == ' ';
    assert LeadsWith(cmd, QuestionPrefixes[0]);
    assert cmd[|p|..] == [' '] + q;
    TrimSpaceHead(' ', q);
  }

  /** "what is q", for a trimmed q without the letters that the earlier
      rules' phrases need, is looked up as q when the lookup succeeds. */
  lemma WhatIsLookup(q: string)
    requires q != [] && Trimmed(q)
    requires forall c :: c in "pybvcul" ==> c !in q
    ensures Cascade("what is" + [' '] + q, true) == Lookup(q)
  {
    var cmd := "what is" + [' '] + q;
    FirstPrefix(QuestionPrefixes[0], q);
    WhatIsSilent(q);
    WhatIsNoVideo(q);
    NoCourse(cmd);
    QuestionAnswer(cmd);
  }

  /** Letters absent from both halves are absent from the command. */
  lemma AbsentLetters(q: string)
    requires forall c :: c in "pybvcul" ==> c !in q
    ensures forall c :: c in "pybvcul" ==> c !in "what is" + [' '] + q
  {
    forall c | c in "pybvcul"
      ensures c !in "what is" + [' '] + q
    {
      assert c !in "what is ";
    }
  }

  /** Such a command is a trimmed question that asks for no PDF, no book and
      no site. */
  lemma WhatIsSilent(q: string)
    requires q != [] && Trimmed(q)
    requires forall c :: c in "pybvcul" ==> c !in q
    ensures var cmd := "what is" + [' '] + q;
      Trimmed(cmd) && IsQuestion(cmd)
      && !PdfIntent(cmd) && !Contains(cmd, "book") && !Contains(cmd, "pdf") && !StartsWith(cmd, "open ")
  {
    var cmd := "what is" + [' '] + q;
    AbsentLetters(q);
    assert cmd[..4] == "what" && cmd[0] == 'w';
    assert cmd[|cmd| - 1] == q[|q| - 1];
    MissingChar(cmd, "pdf", 'p');
    MissingChar(cmd, "syllabus", 'y');
    MissingChar(cmd, "book", 'b');
  }

  /** Such a command asks for no video and no library entry. */
  lemma WhatIsNoVideo(q: string)
    requires forall c :: c in "pybvcul" ==> c !in q
    ensures !VideoIntent("what is" + [' '] + q)
    ensures var cmd := "what is" + [' '] + q; 'b' !in cmd && 'c' !in cmd && 'u' !in cmd && 'l' !in cmd
  {
    var cmd := "what is" + [' '] + q;
    AbsentLetters(q);
    MissingChar(cmd, "video", 'v');
    MissingChar(cmd, "watch", 'c');
    MissingChar(cmd, "play", 'p');
  }

  /** "what is ai", with a successful lookup, is answered with the summary
      for "ai". */
  lemma WhatIsAi()
    ensures Cascade("what is ai", true) == Lookup("ai")
  {
    assert "what is ai" == "what is" + [' '] + "ai";
    WhatIsLookup("ai");
  }

  /** "python course" asks for the first library entry, so it plays the
      Python course whatever the lookup would say. */
  lemma PythonCourse(lookupOk: bool)
    ensures Cascade("python course", lookupOk) == CuratedVideo("python", CourseVideos[0])
  {
    var cmd := "python course";
    PythonCourseSilent(cmd);
    PythonCourseIndex(cmd);
    CourseAnswer(cmd, lookupOk);
  }

  /** "python course" is trimmed and asks for no PDF, no book and no site. */
  lemma PythonCourseSilent(cmd: string)
    requires cmd == "python course"
    ensures Trimmed(cmd) && !StartsWith(cmd, "open ")
    ensures !PdfIntent(cmd) && !Contains(cmd, "book") && !Contains(cmd, "pdf")
  {
    assert cmd[0] == 'p' && cmd[|cmd| - 1] == 'e';
    PythonCourseLetters(cmd);
  }

  /** "python course" holds no "pdf", "syllabus" or "book". */
  lemma PythonCourseLetters(cmd: string)
    requires cmd == "python course"
    ensures !PdfIntent(cmd) && !Contains(cmd, "book") && !Contains(cmd, "pdf")
  {
    assert cmd == "python" + " course";
    assert 'd' !in "python" && 'd' !in " course";
    assert 'l' !in "python" && 'l' !in " course";
    assert 'b' !in "python" && 'b' !in " course";
    MissingChar(cmd, "pdf", 'd');
    MissingChar(cmd, "syllabus", 'l');
    MissingChar(cmd, "book", 'b');
  }

  /** "python course" asks for "python", the first library entry. */
  lemma PythonCourseIndex(cmd: string)
    requires cmd == "python course"
    ensures CourseIndex(cmd) == Some(0)
  {
    assert CourseKeys[0] + " course" == cmd;
    assert OccursAt(cmd, cmd, 0);
    ContainsIff(cmd, cmd);
    assert AsksForCourse(cmd, CourseKeys[0]);
    CourseIndexSpec(cmd);
  }

  /** "open github" starts with "open " and names the site "github". */
  lemma OpenGithub(cmd: string)
    requires cmd == "open github"
    ensures Trimmed(cmd) && StartsWith(cmd, "open ")
    ensures OpenTarget(cmd) == "github"
  {
    assert cmd[5..] == "github";
    TrimTrimmed("github");
  }

  /** The site "github" opens as "https://github.com". */
  lemma GithubAddress(site: string)
    requires site == "github"
    ensures SiteUrl(site) == "https://github.com"
  {
    assert !Contains(site, "http") by { MissingChar(site, "http", 'p'); }
    assert forall k :: 0 <= k < |site| ==> site[k] != ' ';
    BareSiteUrl(site);
  }

  lemma OpenGithubNoPdf(cmd: string)
    requires cmd == "open github"
    ensures !PdfIntent(cmd) && !Contains(cmd, "book") && !Contains(cmd, "pdf")
  {
    MissingChar(cmd, "pdf", 'd');
    MissingChar(cmd, "syllabus", 'y');
    MissingChar(cmd, "book", 'k');
  }

  /** A site name without blanks that does not mention "http" opens as the
      ".com" address of that very name. */
  lemma BareSiteUrl(site: string)
    requires !Contains(site, "http")
    requires forall k :: 0 <= k < |site| ==> site[k] != ' '
    ensures SiteUrl(site) == "https://" + site + ".com"
  {
  }
}
