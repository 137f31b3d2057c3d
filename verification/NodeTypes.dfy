/** The nine kinds of node and three kinds of wire a board is made of. */
module NodeTypes {
  datatype NodeType = Agent | Ctx | Table | Endpoint | Script | Mcp | Vault | Chest | Tool
  datatype WireType = Read | Write | Send
}
