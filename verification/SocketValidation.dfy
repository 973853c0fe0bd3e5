// Identifier checks shared by the WebSocket providers.
module SocketValidation {

  const MAX_TOPIC_LENGTH := 256

  predicate IsDigit(c: char) { '0' <= c <= '9' }

  predicate IsWordChar(c: char) {
    'a' <= c <= 'z' || 'A' <= c <= 'Z' || IsDigit(c) || c == '_'
  }

  predicate IsHexDigit(c: char) {
    IsDigit(c) || 'a' <= c <= 'f' || 'A' <= c <= 'F'
  }

  // Topics are non-empty, bounded, and drawn from a strict allow list.
  predicate ValidTopic(topic: string) {
    && 0 < |topic| <= MAX_TOPIC_LENGTH
    && forall i :: 0 <= i < |topic| ==> IsWordChar(topic[i]) || topic[i] in {':', '.', '-'}
  }

  // Socket ids are UUIDs of version 4.
  predicate ValidSocketId(id: string) {
    && |id| == 36
    && forall i :: 0 <= i < 36 ==>
         if i in {8, 13, 18, 23} then id[i] == '-'
         else if i == 14 then id[i] == '4'
         else if i == 19 then id[i] in {'8', '9', 'a', 'b', 'A', 'B'}
         else IsHexDigit(id[i])
  }

  predicate ValidPair(socketId: string, topic: string) {
    ValidSocketId(socketId) && ValidTopic(topic)
  }

  // A topic has between 1 and 256 characters: digits and letters, here by their codes, and "_", ":", ".", "-".
  lemma TopicsAreExact(topic: string)
    ensures ValidTopic(topic) <==> 1 <= |topic| <= 256 && forall i :: 0 <= i < |topic| ==>
      var c := topic[i] as int;
      48 <= c <= 57 || 65 <= c <= 90 || 97 <= c <= 122 || topic[i] in "_:.-"
  {
  }

  lemma HexDigits(c: char)
    ensures IsHexDigit(c) <==> c in "0123456789abcdefABCDEF"
  {
  }

  // A socket id has groups of 8, 4, 4, 4 and 12 hexadecimal digits, with the version and variant of a
  // version 4 UUID.
  lemma SocketIdsAreExact(id: string)
    ensures ValidSocketId(id) <==>
      && |id| == 36 && id[8] == id[13] == id[18] == id[23] == '-' && id[14] == '4' && id[19] in "89abAB"
      && forall i :: 0 <= i < 36 && i !in {8, 13, 14, 18, 19, 23} ==> id[i] in "0123456789abcdefABCDEF"
  {
    forall c ensures IsHexDigit(c) <==> c in "0123456789abcdefABCDEF" { HexDigits(c); }
  }

  lemma SocketIdExamples()
    ensures ValidSocketId("550e8400-e29b-41d4-a716-446655440000") && ValidTopic("room:123")
    ensures !ValidSocketId("") && !ValidSocketId("invalid") && !ValidTopic("") && !ValidTopic("room<script>")
  {
    assert "room<script>"[4] == '<';
  }
}
