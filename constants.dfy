/** The limits, the word-count table and the two prompt templates of the
    summariser (constants.ts). */
module Constants {
  import opened Text

  /** Longest text, in characters, that is sent for summarisation. */
  const MAX_TEXT_LENGTH: nat := 100000

  /** Largest accepted upload, in bytes: 50 MiB. */
  const MAX_FILE_SIZE: nat := 50 * 1024 * 1024

  /** The length the user asks of the technical summary. */
  datatype Size = Short | Medium | Long

  /** The approximate word count written into the technical prompt. */
  function WordCount(size: Size): string
  {
    match size
    case Short => "~500"
    case Medium => "~1000"
    case Long => "até 1500"
  }

  /** The heading under which the technical summary states the case number. */
  const CASE_NUMBER_HEADING: string := "**Número do Processo:**"

  /** The closing line of both prompts; the case text is appended after it. */
  const PROMPT_END: string := "INÍCIO DO TEXTO DO PROCESSO:\n"

  // The technical template, cut where the word count and the case-number heading go.
  const TECHNICAL_HEAD: string := "\nVocê é um assistente jurídico de IA altamente especializado. Sua tarefa é analisar o texto bruto de um processo judicial e criar um resumo técnico e detalhado.\n\n**Instruções:**\n1.  O resumo deve ser escrito em português jurídico formal e ter aproximadamente "
  const TECHNICAL_MID: string := " palavras.\n2.  Siga estritamente a estrutura abaixo, usando negrito para os títulos.\n3.  Se uma informação não for encontrada no texto, escreva \"Não encontrado\".\n4.  Se o texto de entrada for muito longo, priorize extrair as informações para os campos obrigatórios.\n5.  Destaque em negrito quaisquer citações de artigos de lei.\n\n**Estrutura Obrigatória:**\n\n"
  const TECHNICAL_BODY: string := " (extraia o número do processo)\n**Partes:** (Identifique Autor, Réu e os respectivos advogados, se mencionados)\n**Objeto da Ação:** (Descreva o propósito principal da ação judicial)\n**Pedido Principal e Pedidos Sucessivos:** (Liste o que o autor está pedindo)\n**Fatos Relevantes:** (Apresente uma cronologia resumida dos eventos chave que levaram ao processo)\n**Decisão Judicial Mais Recente:** (Descreva a última decisão, despacho ou sentença, se houver)\n**Status Atual do Processo:** (Indique o estado atual, ex: Em andamento, Concluso para julgamento, Arquivado)\n**Riscos e Próximos Passos:** (Faça uma breve análise preditiva dos possíveis riscos e dos próximos eventos processuais)\n\n---\n"

  /** `getTechnicalPrompt(size)`. */
  function TechnicalPrompt(size: Size): string
  {
    TECHNICAL_HEAD + WordCount(size) + TECHNICAL_MID + CASE_NUMBER_HEADING + TECHNICAL_BODY + PROMPT_END
  }

  const SIMPLIFIED_BODY: string := "\nVocê é um assistente de IA especializado em traduzir linguagem jurídica complexa para um formato simples e claro, destinado a clientes que não são advogados.\n\n**Instruções:**\n1.  Crie um resumo claro e conciso, com no máximo 800 palavras.\n2.  Use linguagem simples, evitando jargões jurídicos (juridiquês).\n3.  Utilize frases curtas e bullet points para facilitar a leitura.\n4.  Responda às perguntas abaixo de forma direta.\n\n**Estrutura do Resumo (Responda a estas perguntas):**\n\n-   **O que está acontecendo neste processo?**\n    (Explique o motivo principal do processo de forma simples.)\n\n-   **Quem está processando quem?**\n    (Identifique o autor e o réu.)\n\n-   **O que a pessoa que entrou com o processo quer?**\n    (Descreva o objetivo principal do autor.)\n\n-   **O que já aconteceu de mais importante?**\n    (Resuma os eventos principais até agora.)\n\n-   **Qual foi a última decisão do juiz?**\n    (Explique a última atualização relevante de forma clara.)\n\n-   **O processo está ganho, perdido ou em andamento?**\n    (Dê uma ideia do status atual do caso.)\n\n-   **O que deve acontecer em seguida?**\n    (Informe os próximos passos prováveis.)\n\n---\n"

  /** `GEMINI_PROMPT_SIMPLIFIED`: one text for every size. */
  const SIMPLIFIED_PROMPT: string := SIMPLIFIED_BODY + PROMPT_END

  /** The three word counts, as the table gives them. */
  lemma WordCountTable()
    ensures WordCount(Short) == "~500" && WordCount(Medium) == "~1000" && WordCount(Long) == "até 1500"
    ensures |WordCount(Short)| == 4 && |WordCount(Medium)| == 5 && |WordCount(Long)| == 8
  {
  }

  /** The word count of the requested size stands right after the fixed opening. */
  lemma TechnicalPromptEmbedsWordCount(size: Size)
    ensures MatchesAt(TechnicalPrompt(size), |TECHNICAL_HEAD|, WordCount(size))
  {
    var w := WordCount(size);
    MatchesInMiddle(TECHNICAL_HEAD, w, TECHNICAL_MID);
    MatchesExtend(TECHNICAL_HEAD + w + TECHNICAL_MID, CASE_NUMBER_HEADING, |TECHNICAL_HEAD|, w);
    MatchesExtend(TECHNICAL_HEAD + w + TECHNICAL_MID + CASE_NUMBER_HEADING, TECHNICAL_BODY, |TECHNICAL_HEAD|, w);
    MatchesExtend(TECHNICAL_HEAD + w + TECHNICAL_MID + CASE_NUMBER_HEADING + TECHNICAL_BODY, PROMPT_END,
                  |TECHNICAL_HEAD|, w);
  }

  /** Distinct sizes give distinct technical prompts. */
  lemma TechnicalPromptsDistinct(a: Size, b: Size)
    requires a != b
    ensures TechnicalPrompt(a) != TechnicalPrompt(b)
  {
    WordCountTable();
    assert |TechnicalPrompt(a)| - |TechnicalPrompt(b)| == |WordCount(a)| - |WordCount(b)|;
  }

  /** The technical prompt asks for the heading the case-number extractor looks for. */
  lemma TechnicalPromptHasCaseNumberHeading(size: Size)
    ensures Contains(TechnicalPrompt(size), CASE_NUMBER_HEADING)
  {
    var before := TECHNICAL_HEAD + WordCount(size) + TECHNICAL_MID;
    ContainsInMiddle(before, CASE_NUMBER_HEADING, TECHNICAL_BODY);
    ContainsExtend(before + CASE_NUMBER_HEADING + TECHNICAL_BODY, PROMPT_END, CASE_NUMBER_HEADING);
  }

  /** `e` ends `a + e`. */
  lemma EndsWithAppended(a: string, e: string)
    ensures EndsWith(a + e, e)
  {
    assert (a + e)[|a + e| - |e|..] == e;
  }

  /** Both prompts end with the opening line of the case text and a line break. */
  lemma PromptsEndWithTextMarker(size: Size)
    ensures EndsWith(TechnicalPrompt(size), PROMPT_END)
    ensures EndsWith(SIMPLIFIED_PROMPT, PROMPT_END)
    ensures PROMPT_END[|PROMPT_END| - 1] == '\n'
  {
    EndsWithAppended(TECHNICAL_HEAD + WordCount(size) + TECHNICAL_MID + CASE_NUMBER_HEADING + TECHNICAL_BODY, PROMPT_END);
    EndsWithAppended(SIMPLIFIED_BODY, PROMPT_END);
  }
}
