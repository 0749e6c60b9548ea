/**
 * The one-sentence reading note and the note file naming rule of the article service.
 */
module Notes {
  import opened Wrappers
  import opened Text
  import opened Article
  import opened Keywords
  import opened Analysis
  import Naming
  import Download

  /** The title with "聊一聊", "我是如何" and every "的" removed, in that order. */
  function CleanTitle(title: string): (r: string)
    ensures '的' !in r
  {
    var rest := ReplaceAll(ReplaceAll(title, "聊一聊", ""), "我是如何", "");
    RemoveCharLeavesNone(rest, '的');
    ReplaceAll(rest, "的", "")
  }

  /** The five kinds of article the title can announce. */
  datatype Kind = Learning | Technical | Reflective | Introductory | General

  /** The first matching group of title words decides the kind. */
  function KindOf(title: string): (k: Kind)
    ensures k == Learning <==> Contains(title, "学习") || Contains(title, "如何")
    ensures k == Technical <==>
      !(Contains(title, "学习") || Contains(title, "如何")) && (Contains(title, "技术") || Contains(title, "开发"))
    ensures k == Reflective <==>
      && !(Contains(title, "学习") || Contains(title, "如何"))
      && !(Contains(title, "技术") || Contains(title, "开发"))
      && (Contains(title, "思考") || Contains(title, "观点") || Contains(title, "看法"))
    ensures k == Introductory <==>
      && !(Contains(title, "学习") || Contains(title, "如何"))
      && !(Contains(title, "技术") || Contains(title, "开发"))
      && !(Contains(title, "思考") || Contains(title, "观点") || Contains(title, "看法"))
      && (Contains(title, "介绍") || Contains(title, "什么是"))
  {
    if Contains(title, "学习") || Contains(title, "如何") then Learning
    else if Contains(title, "技术") || Contains(title, "开发") then Technical
    else if Contains(title, "思考") || Contains(title, "观点") || Contains(title, "看法") then Reflective
    else if Contains(title, "介绍") || Contains(title, "什么是") then Introductory
    else General
  }

  /** The first keyword, or the cleaned title when there is none. */
  function MainTopic(title: string, keywords: seq<string>): string {
    if keywords != [] then keywords[0] else CleanTitle(title)
  }

  /** The second and third keywords joined with "、", when there are at least two. */
  function Supporting(keywords: seq<string>): (r: string)
    ensures r != [] ==> |keywords| >= 2
    ensures |keywords| >= 2 && keywords[1] != [] ==> r != []
  {
    if |keywords| > 1 then
      var sup := if |keywords| >= 3 then keywords[1..3] else keywords[1..];
      assert sup[0] == keywords[1];
      Join(sup, "、")
    else ""
  }

  /** The part of the template in front of the main topic. */
  function Lead(kind: Kind, author: string): string {
    match kind
    case Learning => "作者" + author + "分享了学习"
    case Technical => "这篇文章介绍了"
    case Reflective => "作者" + author + "对"
    case Introductory => "这篇文章详细介绍了"
    case General => "作者" + author + "围绕"
  }

  /** The part of the long template between the main topic and the supporting topics. */
  function Bridge(kind: Kind): string {
    match kind
    case Learning => "的方法，重点强调了"
    case Technical => "技术，涵盖了"
    case Reflective => "进行了深入思考，从"
    case Introductory => "的概念和应用，重点阐述了"
    case General => "主题，深入探讨了"
  }

  /** The end of the long template, after the supporting topics. */
  function Close(kind: Kind): string {
    match kind
    case Learning => "的重要性，建议通过实践和持续学习来掌握相关技能。"
    case Technical => "等核心概念，为开发者提供了实用的技术指导。"
    case Reflective => "等角度分析了相关问题，提出了独到的见解。"
    case Introductory => "等关键要素。"
    case General => "等关键问题，为读者提供了有价值的见解和建议。"
  }

  /** The end of the short template, used when there are no supporting topics. */
  function ShortClose(kind: Kind): string {
    match kind
    case Learning => "的经验和方法，强调了实践的重要性。"
    case Technical => "相关的技术内容和实践经验。"
    case Reflective => "进行了深入思考，分享了个人的观点和见解。"
    case Introductory => "的相关内容和基本概念。"
    case General => "主题分享了个人的经验和见解。"
  }

  /** `_generate_one_sentence_from_content`; the paragraphs it receives are not used. */
  function OneSentence(title: string, author: string, keywords: seq<string>): (r: string)
    ensures StartsWith(r, Lead(KindOf(title), author) + MainTopic(title, keywords))
    ensures Supporting(keywords) != [] ==> EndsWith(r, Close(KindOf(title)))
    ensures Supporting(keywords) == [] ==> EndsWith(r, ShortClose(KindOf(title)))
  {
    var kind := KindOf(title);
    var main := MainTopic(title, keywords);
    var sup := Supporting(keywords);
    if sup != [] then Lead(kind, author) + main + Bridge(kind) + sup + Close(kind)
    else Lead(kind, author) + main + ShortClose(kind)
  }

  /** The sentence names the main topic, and the supporting topics whenever there are any. */
  lemma OneSentenceMentions(title: string, author: string, keywords: seq<string>)
    ensures Contains(OneSentence(title, author, keywords), MainTopic(title, keywords))
    ensures Supporting(keywords) != [] ==> Contains(OneSentence(title, author, keywords), Supporting(keywords))
  {
    var kind := KindOf(title);
    var main := MainTopic(title, keywords);
    var sup := Supporting(keywords);
    var lead := Lead(kind, author);
    if sup != [] {
      assert OneSentence(title, author, keywords) == lead + main + (Bridge(kind) + sup + Close(kind));
      ContainsMiddle(lead, main, Bridge(kind) + sup + Close(kind));
      assert OneSentence(title, author, keywords) == (lead + main + Bridge(kind)) + sup + Close(kind);
      ContainsMiddle(lead + main + Bridge(kind), sup, Close(kind));
    } else {
      ContainsMiddle(lead, main, ShortClose(kind));
    }
  }

  /** The words of the first three ranked keywords. */
  function CoreKeywords(ranked: seq<Keyword>): (r: seq<string>)
    ensures |r| == if |ranked| < 3 then |ranked| else 3
    ensures forall k :: 0 <= k < |r| ==> r[k] == ranked[k].word
  {
    var top := if |ranked| < 3 then ranked else ranked[..3];
    seq(|top|, k requires 0 <= k < |top| => top[k].word)
  }

  /**
   * With keywords taken from the article's own content, the supporting clause is present
   * exactly when there are at least two core keywords.
   */
  lemma SupportingIffTwoKeywords(content: string)
    ensures var core := CoreKeywords(TopKeywords(Words(content)));
      Supporting(core) != [] <==> |core| >= 2
  {
    KeywordsSound(content);
    var core := CoreKeywords(TopKeywords(Words(content)));
    if |core| >= 2 {
      assert IsKeyword(TopKeywords(Words(content))[1].word);
    }
  }

  datatype OneSentenceNote = OneSentenceNote(title: string, author: string, coreKeywords: seq<string>, sentence: string)

  function OneSentenceNoteOf(data: Option<Article>): Result<OneSentenceNote, string> {
    match data
    case None => Err(NotADict)
    case Some(a) =>
      var core := CoreKeywords(TopKeywords(Words(a.content)));
      Ok(OneSentenceNote(a.title, a.author, core, OneSentence(a.title, a.author, core)))
  }

  /** `generate_one_sentence_summary`: ranks the keywords through the analysis tool first. */
  method GenerateOneSentenceSummary(data: Option<Article>) returns (r: Result<OneSentenceNote, string>)
    ensures r == OneSentenceNoteOf(data)
    ensures r.Err? <==> data.None?
    ensures r.Ok? ==> |r.value.coreKeywords| <= 3
    ensures r.Ok? ==> Contains(r.value.sentence, MainTopic(data.value.title, r.value.coreKeywords))
  {
    if data.None? {
      return Err(NotADict);
    }
    var a := data.value;
    var analysis := AnalyzeArticleContent(data, "keywords");
    var core := CoreKeywords(analysis.keywords.value);
    OneSentenceMentions(a.title, a.author, core);
    return Ok(OneSentenceNote(a.title, a.author, core, OneSentence(a.title, a.author, core)));
  }

  /** Appends ".md" unless the name already ends with it. */
  function EnsureMarkdown(name: string): (r: string)
    ensures EndsWith(r, ".md")
    ensures StartsWith(r, name)
    ensures EndsWith(name, ".md") ==> r == name
    ensures !EndsWith(name, ".md") ==> r == name + ".md"
  {
    if EndsWith(name, ".md") then name
    else
      assert (name + ".md")[|name|..] == ".md";
      assert (name + ".md")[..|name|] == name;
      name + ".md"
  }

  lemma EnsureMarkdownIdempotent(name: string)
    ensures EnsureMarkdown(EnsureMarkdown(name)) == EnsureMarkdown(name)
  {
  }

  /**
   * The note's file name: the custom name, or one built from the sanitised (untruncated)
   * title, the note style and the timestamp; in both cases with ".md" ensured.
   */
  function NotesFileName(customName: string, title: string, noteStyle: string, timestamp: string): (r: string)
    ensures EndsWith(r, ".md")
    ensures customName != [] ==> StartsWith(r, customName)
    ensures customName == [] ==> StartsWith(r, "读书笔记_")
  {
    var name := if customName != [] then customName
                else "读书笔记_" + Naming.SafeTitle(title) + "_" + noteStyle + "_" + timestamp;
    assert customName == [] ==> name[..|"读书笔记_"|] == "读书笔记_";
    EnsureMarkdown(name)
  }

  function NotesPath(customName: string, title: string, noteStyle: string, timestamp: string): string {
    Download.PathJoin("reading_notes", NotesFileName(customName, title, noteStyle, timestamp))
  }

  /** Without a custom name, the note file name carries no path separator the title could add. */
  lemma NotesFileNameClean(title: string, noteStyle: string, timestamp: string)
    requires '/' !in noteStyle && '/' !in timestamp
    ensures '/' !in NotesFileName("", title, noteStyle, timestamp)
  {
    assert Naming.Clean(Naming.SafeTitle(title));
  }
}
